// Elements that work with the flow (lena/flow/elements.py): Count, RunIf,
// RunningChunkBy and End.

module FlowElements {
  import opened Wrappers
  import opened Values
  import opened FlowFunctions
  import opened Selectors
  import opened CoreElements
  import opened CoreRun
  import opened CoreBuild
  import opened CoreLoops
  import CoreLaws

  // ------------------------------------------------------------------
  // Count

  /** Counts the values that pass through it. */
  class Count {
    var name: string
    var count: int
    var curContext: Dict

    constructor (name: string, count: int)
      ensures this.name == name && this.count == count && curContext == map[]
    {
      this.name := name;
      this.count := count;
      curContext := map[];
    }

    /** `fill(value)`: one more value, whose context becomes current. */
    method Fill(value: Val)
      modifies this
      ensures count == old(count) + 1
      ensures curContext == GetContext(value) && name == old(name)
    {
      count := count + 1;
      curContext := GetContext(value);
    }

    /** `compute()`: the count with the current context, which is updated
        with `{name: count}`; computing again gives the same value. */
    method Compute() returns (r: Val)
      modifies this
      ensures count == old(count) && name == old(name)
      ensures curContext == old(curContext)[name := VInt(count)]
      ensures curContext[name := VInt(count)] == curContext
      ensures r == Pair(VInt(count), curContext)
    {
      curContext := curContext[name := VInt(count)];
      r := Pair(VInt(count), curContext);
    }

    /** `fill_into(element, value)`: one more value, filled into the
        element with the count added to its context; the value filled is
        returned. */
    method FillInto(value: Val) returns (filled: Val)
      modifies this
      ensures count == old(count) + 1 && name == old(name) && curContext == old(curContext)
      ensures filled == Pair(GetData(value), GetContext(value)[name := VInt(count)])
    {
      count := count + 1;
      var (data, context) := GetDataContext(value);
      filled := Pair(data, context[name := VInt(count)]);
    }

    /** `reset()`: the count is zero (not the initial count) and the
        context empty. */
    method Reset()
      modifies this
      ensures count == 0 && curContext == map[] && name == old(name)
    {
      count := 0;
      curContext := map[];
    }

    /** `run(flow)`: every value passes unchanged except the last, whose
        context gets the total count; the count grows by the number of
        values, and an empty flow yields nothing. */
    method Run(flow: seq<Val>) returns (out: seq<Val>)
      modifies this
      ensures name == old(name) && curContext == old(curContext)
      ensures |flow| == 0 ==> out == [] && count == old(count)
      ensures |flow| > 0 ==>
                count == old(count) + |flow| && |out| == |flow|
                && out[..|flow| - 1] == flow[..|flow| - 1]
                && out[|flow| - 1] == Pair(GetData(flow[|flow| - 1]), GetContext(flow[|flow| - 1])[name := VInt(count)])
    {
      if |flow| == 0 {
        return [];
      }
      var prev := flow[0];
      var n := 1;
      out := [];
      var i := 1;
      while i < |flow|
        invariant 1 <= i <= |flow| && n == i && prev == flow[i - 1] && out == flow[..i - 1]
      {
        out := out + [prev];
        n := n + 1;
        prev := flow[i];
        i := i + 1;
      }
      count := count + n;
      var (data, context) := GetDataContext(prev);
      out := out + [Pair(data, context[name := VInt(count)])];
    }
  }

  /** `Count("my_counter").run([0, 1, 2])`. */
  method CountRunExample() returns (out: seq<Val>)
    ensures out == [VInt(0), VInt(1), Pair(VInt(2), map["my_counter" := VInt(3)])]
  {
    var c := new Count("my_counter", 0);
    out := c.Run([VInt(0), VInt(1), VInt(2)]);
    assert out[..2] == [VInt(0), VInt(1)];
  }

  /** Filling four values from an initial count of 3, computing, resetting
      and computing again. */
  method CountFillExample() returns (first: Val, second: Val)
    ensures first == Pair(VInt(7), map["counter" := VInt(7)])
    ensures second == Pair(VInt(0), map["counter" := VInt(0)])
  {
    var c := new Count("counter", 3);
    c.Fill(VInt(1));
    c.Fill(VInt(2));
    c.Fill(VInt(3));
    c.Fill(VStr("foo"));
    first := c.Compute();
    c.Reset();
    second := c.Compute();
  }

  // ------------------------------------------------------------------
  // RunIf

  /** `RunIf(select, *args)`: the selector and the sequence run for
      selected values. */
  datatype RunIf = RunIf(select: Selector, sq: Element)

  /** `RunIf.__init__`: a non-selector that cannot become one, or
      arguments that cannot make a `Sequence`, raise LenaTypeError. */
  function MakeRunIf(select: SelectorArg, args: seq<Element>, nextId: nat): (r: Result<(RunIf, nat)>)
    ensures r.Failure? ==> r.error == LenaTypeError
    ensures Make(select).Failure? ==> r.Failure?
    ensures r.Success? ==> r.value.0.select == Make(select).value
    ensures r.Success? && |args| == 1 && args[0].Sequence? ==> r.value == (RunIf(Make(select).value, args[0]), nextId)
    ensures Make(select).Success? && !(|args| == 1 && args[0].Sequence?) ==>
              (r.Success? <==> MakeSequence(args, nextId).Success?)
  {
    var sel :- Make(select);
    if |args| == 1 && args[0].Sequence? then Success((RunIf(sel, args[0]), nextId))
    else
      var (sq, next) :- MakeSequence(args, nextId);
      Success((RunIf(sel, sq), next))
  }

  /** One value: the sequence's output for a selected value, the value
      itself otherwise. */
  function RunIfStep(ri: RunIf, st: Store, v: Val): Result<(Store, seq<Val>)>
  {
    if Selected(ri.select, v) then RunFlow(ri.sq, st, [v]) else Success((st, [v]))
  }

  /** `RunIf.run(flow)`: each value replaced by its step's output, in order. */
  function RunIfFlow(ri: RunIf, st: Store, flow: seq<Val>): Result<(Store, seq<Val>)>
    decreases |flow|
  {
    if |flow| == 0 then Success((st, []))
    else
      var (st1, outs) :- RunIfStep(ri, st, flow[0]);
      var (st2, rest) :- RunIfFlow(ri, st1, flow[1..]);
      Success((st2, outs + rest))
  }

  /** The loop of `RunIf.run`. */
  method RunIfLoop(ri: RunIf, st: Store, flow: seq<Val>) returns (r: Result<(Store, seq<Val>)>)
    ensures r == RunIfFlow(ri, st, flow)
  {
    var cur := st;
    var outs: seq<Val> := [];
    var i := 0;
    AddOutsNothing(RunIfFlow(ri, st, flow));
    while i < |flow|
      invariant 0 <= i <= |flow|
      invariant RunIfFlow(ri, st, flow) == AddOuts(outs, RunIfFlow(ri, cur, flow[i..]))
    {
      assert flow[i..][1..] == flow[i + 1..];
      var step := RunIfStep(ri, cur, flow[i]);
      if step.Failure? {
        return Failure(step.error);
      }
      AddOutsTwice(outs, step.value.1, RunIfFlow(ri, step.value.0, flow[i + 1..]));
      outs := outs + step.value.1;
      cur := step.value.0;
      i := i + 1;
    }
    assert outs + [] == outs;
    return Success((cur, outs));
  }

  /** When nothing is selected, the flow passes unchanged and the sequence
      is never run. */
  lemma {:induction false} RunIfNoneSelected(ri: RunIf, st: Store, flow: seq<Val>)
    requires forall i :: 0 <= i < |flow| ==> !Selected(ri.select, flow[i])
    ensures RunIfFlow(ri, st, flow) == Success((st, flow))
    decreases |flow|
  {
    if |flow| > 0 {
      assert forall i :: 0 <= i < |flow| - 1 ==> flow[1..][i] == flow[i + 1];
      RunIfNoneSelected(ri, st, flow[1..]);
      assert [flow[0]] + flow[1..] == flow;
    }
  }

  /** Selected values mapped by *g*, the others kept. */
  function MapIf(sel: Selector, g: Val -> Val, flow: seq<Val>): (r: seq<Val>)
    ensures |r| == |flow|
    ensures forall i :: 0 <= i < |flow| ==> r[i] == if Selected(sel, flow[i]) then g(flow[i]) else flow[i]
  {
    if |flow| == 0 then []
    else [if Selected(sel, flow[0]) then g(flow[0]) else flow[0]] + MapIf(sel, g, flow[1..])
  }

  /** With a sequence that maps every value by *g*, `RunIf` maps exactly
      the selected values, keeps the others in place, and the order is
      preserved. */
  lemma {:induction false} RunIfMaps(sel: Selector, sid: nat, rid: nat, id: nat, g: Val -> Val,
                                     st: Store, flow: seq<Val>)
    ensures RunIfFlow(RunIf(sel, CoreLaws.MapSeq(sid, rid, id, g)), st, flow) == Success((st, MapIf(sel, g, flow)))
    decreases |flow|
  {
    if |flow| > 0 {
      var ri := RunIf(sel, CoreLaws.MapSeq(sid, rid, id, g));
      CoreLaws.MapSeqMaps(sid, rid, id, g, st, [flow[0]]);
      assert CoreLaws.MapVals(g, [flow[0]]) == [g(flow[0])];
      assert RunIfStep(ri, st, flow[0]) == Success((st, [if Selected(sel, flow[0]) then g(flow[0]) else flow[0]]));
      RunIfMaps(sel, sid, rid, id, g, st, flow[1..]);
    }
  }

  /** `lambda num: num + 1` on integers and floats. */
  function AddOne(v: Val): Val
  {
    match v
    case VInt(i) => VInt(i + 1)
    case VReal(x) => VReal(x + 1.0)
    case _ => v
  }

  function NoConstructor(v: Val): Result<Val> { Failure(PyTypeError) }

  /** `RunIf(float, add_1)` joins `add_1` into a sequence; a selector `0`
      or an element `0` raise LenaTypeError. */
  lemma RunIfInitExample(id: nat, n: nat)
    ensures MakeRunIf(ArgClass("float", NoConstructor), [CoreLaws.FnEl(id, AddOne)], n)
            == Success((RunIf(ByClass("float"), CoreLaws.MapSeq(n, n + 1, id, AddOne)), n + 2))
    ensures MakeRunIf(ArgOther(VInt(0)), [CoreLaws.FnEl(id, AddOne)], n) == Failure(LenaTypeError)
    ensures MakeRunIf(ArgClass("float", NoConstructor), [Data(VInt(0))], n) == Failure(LenaTypeError)
  {
    CoreLaws.MakeMapSeq(id, AddOne, n);
    assert !Callable(Data(VInt(0))) && !IsRunEl(Data(VInt(0))) && !IsFillComputeEl(Data(VInt(0)));
    assert SequenceArgs([Data(VInt(0))]) == [Data(VInt(0))];
  }

  /** `RunIf(float, add_1).run([1, 2.5]) == [1, 3.5]`. */
  lemma RunIfRunExample(id: nat, n: nat, st: Store)
    ensures RunIfFlow(RunIf(ByClass("float"), CoreLaws.MapSeq(n, n + 1, id, AddOne)), st, [VInt(1), VReal(2.5)])
            == Success((st, [VInt(1), VReal(3.5)]))
  {
    var sel := ByClass("float");
    RunIfMaps(sel, n, n + 1, id, AddOne, st, [VInt(1), VReal(2.5)]);
    SelectedMeaning(sel, VInt(1));
    SelectedMeaning(sel, VReal(2.5));
    var m := MapIf(sel, AddOne, [VInt(1), VReal(2.5)]);
    assert m[0] == VInt(1) && m[1] == VReal(3.5);
    assert m == [VInt(1), VReal(3.5)];
  }

  // ------------------------------------------------------------------
  // RunningChunkBy

  /** The `container` argument: a constructor of chunks, or something
      that is not callable. */
  datatype ContainerArg = Constructor(make: seq<Val> -> Val) | Uncallable(v: Val)

  datatype RunningChunkBy = RunningChunkBy(size: int, make: seq<Val> -> Val)

  /** The default container, `tuple`. */
  function AsTuple(chunk: seq<Val>): Val { VTuple(chunk) }

  /** `RunningChunkBy.__init__` as written: it raises `LenaTypeError`,
      a name this module never imports, so a non-callable container
      raises NameError. */
  function MakeRunningChunkByAsWritten(size: int, container: ContainerArg): (r: Result<RunningChunkBy>)
    ensures r.Failure? <==> container.Uncallable?
    ensures r.Failure? ==> r.error == PyNameError
  {
    match container
    case Constructor(make) => Success(RunningChunkBy(size, make))
    case Uncallable(_) => Failure(PyNameError)
  }

  /** `RunningChunkBy.__init__` as intended: LenaTypeError for a
      non-callable container.
      This is the corrected behaviour; the program as written is `MakeRunningChunkByAsWritten`. */
  function MakeRunningChunkBy(size: int, container: ContainerArg): (r: Result<RunningChunkBy>)
    ensures r.Failure? <==> container.Uncallable?
    ensures r.Failure? ==> r.error == LenaTypeError
    ensures r.Success? ==> r.value == RunningChunkBy(size, container.make)
  {
    match container
    case Constructor(make) => Success(RunningChunkBy(size, make))
    case Uncallable(_) => Failure(LenaTypeError)
  }

  /** The two constructors agree except on the error they raise. */
  lemma ChunkConstructorsDiffer(size: int, v: Val, make: seq<Val> -> Val)
    ensures MakeRunningChunkByAsWritten(size, Uncallable(v)) == Failure(PyNameError)
    ensures MakeRunningChunkBy(size, Uncallable(v)) == Failure(LenaTypeError)
    ensures MakeRunningChunkByAsWritten(size, Constructor(make)) == MakeRunningChunkBy(size, Constructor(make))
  {
  }

  /** `RunningChunkBy.run(flow)`: the chunk is a deque holding at most
      *size* values; one chunk is yielded per further value and one at
      the end if the chunk is full. A negative size is rejected by
      `islice`. */
  method RunChunks(rc: RunningChunkBy, flow: seq<Val>) returns (r: Result<seq<Val>>)
    ensures r.Failure? <==> rc.size < 0
    ensures r.Failure? ==> r.error == PyValueError
    ensures r.Success? && |flow| < rc.size ==> r.value == []
    ensures r.Success? && |flow| >= rc.size ==>
              |r.value| == |flow| - rc.size + 1
              && forall j :: 0 <= j < |r.value| ==> r.value[j] == rc.make(flow[j..j + rc.size])
  {
    if rc.size < 0 {
      return Failure(PyValueError);
    }
    var k := rc.size;
    var n := if k < |flow| then k else |flow|;
    var chunk := flow[..n];
    var out: seq<Val> := [];
    var i := n;
    while i < |flow|
      invariant n <= i <= |flow|
      invariant i > n ==> n == k
      invariant n == k ==> chunk == flow[i - k..i]
      invariant n < k ==> chunk == flow[..n] && i == n
      invariant |out| == i - n
      invariant forall j :: 0 <= j < |out| ==> out[j] == rc.make(flow[j..j + k])
    {
      out := out + [rc.make(chunk)];
      chunk := (chunk + [flow[i]])[1..];
      i := i + 1;
    }
    if |chunk| == k {
      out := out + [rc.make(chunk)];
    }
    return Success(out);
  }

  /** `RunningChunkBy(2).run(range(5))` gives the four pairs of
      neighbours; `RunningChunkBy(2).run((1,))` gives nothing. */
  method ChunkExample() returns (pairs: Result<seq<Val>>, none: Result<seq<Val>>)
    ensures pairs == Success([VTuple([VInt(0), VInt(1)]), VTuple([VInt(1), VInt(2)]),
                              VTuple([VInt(2), VInt(3)]), VTuple([VInt(3), VInt(4)])])
    ensures none == Success([])
  {
    var rc := RunningChunkBy(2, AsTuple);
    var flow := [VInt(0), VInt(1), VInt(2), VInt(3), VInt(4)];
    pairs := RunChunks(rc, flow);
    assert |pairs.value| == 4;
    assert flow[0..2] == [VInt(0), VInt(1)] && flow[1..3] == [VInt(1), VInt(2)];
    assert flow[2..4] == [VInt(2), VInt(3)] && flow[3..5] == [VInt(3), VInt(4)];
    assert pairs.value[0] == VTuple([VInt(0), VInt(1)]) && pairs.value[1] == VTuple([VInt(1), VInt(2)]);
    assert pairs.value[2] == VTuple([VInt(2), VInt(3)]) && pairs.value[3] == VTuple([VInt(3), VInt(4)]);
    var expected := [VTuple([VInt(0), VInt(1)]), VTuple([VInt(1), VInt(2)]),
                     VTuple([VInt(2), VInt(3)]), VTuple([VInt(3), VInt(4)])];
    assert pairs.value == expected;
    none := RunChunks(rc, [VInt(1)]);
  }

  // ------------------------------------------------------------------
  // End

  /** `End()`: a run method that consumes its flow and yields nothing. */
  function EndEl(id: nat): (e: Element)
    ensures IsRunEl(e)
  {
    User(id, map["run" := (s: Val, args: seq<Val>) => Success((s, VList([])))])
  }

  /** A sequence ending with `End` runs everything before it, with the
      same errors and final states, and yields nothing. */
  lemma EndStopsSequence(els: seq<Element>, id: nat, st: Store, flow: seq<Val>)
    ensures RunAll(els + [EndEl(id)], st, flow)
            == (var (st1, _) :- RunAll(els, st, flow); Success((st1, [])))
  {
    CoreLaws.RunAllAppend(els, [EndEl(id)], st, flow);
    var first := RunAll(els, st, flow);
    if first.Success? {
      var (st1, outs) := first.value;
      assert Invoke(EndEl(id), st1, "run", outs) == Success((st1, VList([])));
      assert RunFlow(EndEl(id), st1, outs) == Success((st1, []));
      assert [EndEl(id)][1..] == [];
      assert RunAll([EndEl(id)], st1, outs) == RunAll([], st1, []);
    }
  }
}
