// Sum and mean of the values filled into an element (lena/math/elements.py).

module MathElements {
  import opened Wrappers
  import opened Values
  import opened CoreRun
  import opened FlowFunctions

  /** `x += y`: numbers add (booleans count as integers, and a float makes
      the sum a float), strings and tuples concatenate with their own kind,
      and a list is extended by any iterable; anything else is a
      TypeError. */
  function AddInPlace(x: Val, y: Val): (r: Result<Val>)
    ensures Number(x).Some? && Number(y).Some? ==>
              && r.Success? && Number(r.value) == Some(Number(x).value + Number(y).value)
              && (r.value.VReal? <==> x.VReal? || y.VReal?) && (r.value.VInt? <==> !(x.VReal? || y.VReal?))
    ensures x.VList? && y.VList? ==> r == Success(VList(x.items + y.items))
    ensures r.Failure? ==> r.error == PyTypeError
  {
    if Number(x).Some? && Number(y).Some? then
      if x.VReal? || y.VReal? then Success(VReal(Number(x).value + Number(y).value))
      else Success(VInt(Int(x) + Int(y)))
    else if x.VStr? && y.VStr? then Success(VStr(x.s + y.s))
    else if x.VTuple? && y.VTuple? then Success(VTuple(x.items + y.items))
    else if x.VList? then
      var more :- Iterate(y);
      Success(VList(x.items + more))
    else Failure(PyTypeError)
  }

  /** The integer value of an integer or a boolean. */
  function Int(v: Val): (i: int)
    requires v.VInt? || v.VBool?
    ensures i as real == Number(v).value
  {
    if v.VInt? then v.i else if v.b then 1 else 0
  }

  /** The start value with every item added in turn, the first failing
      addition raising its error. */
  function SumOf(start: Val, data: seq<Val>): Result<Val>
    decreases |data|
  {
    if |data| == 0 then Success(start)
    else
      var s :- SumOf(start, data[..|data| - 1]);
      AddInPlace(s, data[|data| - 1])
  }

  /** The sum of integers. */
  function Total(xs: seq<int>): int
  {
    if |xs| == 0 then 0 else Total(xs[..|xs| - 1]) + xs[|xs| - 1]
  }

  /** Integers added to an integer start give the integer total. */
  lemma {:induction false} SumOfInts(start: int, xs: seq<int>)
    ensures SumOf(VInt(start), seq(|xs|, i requires 0 <= i < |xs| => VInt(xs[i]))) == Success(VInt(start + Total(xs)))
    decreases |xs|
  {
    var data := seq(|xs|, i requires 0 <= i < |xs| => VInt(xs[i]));
    if |xs| > 0 {
      var init := xs[..|xs| - 1];
      assert data[..|data| - 1] == seq(|init|, i requires 0 <= i < |init| => VInt(init[i]));
      SumOfInts(start, init);
    }
  }

  /** Lists added to a list give their concatenation. */
  lemma {:induction false} SumOfLists(start: seq<Val>, data: seq<Val>, flat: seq<Val>)
    requires forall i :: 0 <= i < |data| ==> data[i].VList?
    requires flat == Concat(data)
    ensures SumOf(VList(start), data) == Success(VList(start + flat))
    decreases |data|
  {
    if |data| > 0 {
      var init := data[..|data| - 1];
      SumOfLists(start, init, Concat(init));
      assert start + Concat(init) + data[|data| - 1].items == start + flat;
    } else {
      assert start + flat == start;
    }
  }

  /** The items of a sequence of lists, one list after another. */
  function Concat(data: seq<Val>): seq<Val>
    requires forall i :: 0 <= i < |data| ==> data[i].VList?
  {
    if |data| == 0 then [] else Concat(data[..|data| - 1]) + data[|data| - 1].items
  }

  /** The value *compute* yields: the result alone when the context is
      empty, otherwise paired with it. */
  function Output(result: Val, context: Dict): (r: Val)
    ensures context == map[] ==> r == result
    ensures context != map[] ==> GetDataContext(r) == (result, context)
  {
    if context == map[] then result else Pair(result, context)
  }

  /** `Sum(start)`: the sum of the data filled since the last reset, and
      the context of the last value filled. */
  class Sum {
    const start: Val
    var sum: Val
    var curContext: Dict
    /** The data parts filled since the last reset. */
    ghost var filled: seq<Val>

    ghost predicate Valid()
      reads this
    {
      SumOf(start, filled) == Success(sum)
    }

    /** `__init__(start)`: the element is reset. */
    constructor (start: Val)
      ensures Valid()
      ensures this.start == start && sum == start && curContext == map[] && filled == []
    {
      this.start := start;
      sum := start;
      curContext := map[];
      filled := [];
    }

    /** `fill(value)`: adds the data part to the sum and keeps the context;
        an addition that fails raises before anything changes. */
    method Fill(value: Val) returns (r: Result<()>)
      requires Valid()
      modifies this
      ensures Valid()
      ensures AddInPlace(old(sum), GetData(value)).Success? ==>
                && r.Success?
                && sum == AddInPlace(old(sum), GetData(value)).value
                && curContext == GetContext(value)
                && filled == old(filled) + [GetData(value)]
      ensures AddInPlace(old(sum), GetData(value)).Failure? ==>
                && r == Failure(AddInPlace(old(sum), GetData(value)).error)
                && sum == old(sum) && curContext == old(curContext) && filled == old(filled)
    {
      var (data, context) := GetDataContext(value);
      var s := AddInPlace(sum, data);
      if s.Failure? {
        return Failure(s.error);
      }
      assert (filled + [data])[..|filled|] == filled;
      sum := s.value;
      curContext := context;
      filled := filled + [data];
      return Success(());
    }

    /** `compute()`: the sum of everything filled since the last reset,
        bare or with the last context. */
    method Compute() returns (r: Val)
      requires Valid()
      ensures r == Output(sum, curContext)
      ensures curContext != map[] ==> GetDataContext(r) == (SumOf(start, filled).value, curContext)
      ensures curContext == map[] ==> SumOf(start, filled) == Success(r)
    {
      r := Output(sum, curContext);
    }

    /** `reset()`: the sum is the start value again and the context is
        empty; the start value is not affected. */
    method Reset()
      modifies this
      ensures Valid()
      ensures sum == start && curContext == map[] && filled == []
    {
      sum := start;
      curContext := map[];
      filled := [];
    }
  }

  /** `x / float(n)` for a positive count: a number gives a float;
      anything else is a TypeError. */
  function Divide(x: Val, n: nat): (r: Result<Val>)
    requires n > 0
    ensures Number(x).Some? ==> r == Success(VReal(Number(x).value / n as real))
    ensures Number(x).None? ==> r == Failure(PyTypeError)
  {
    if Number(x).Some? then Success(VReal(Number(x).value / n as real)) else Failure(PyTypeError)
  }

  /** `Mean(start)`: the sum and count of the data filled since the last
      reset, and the context of the last value filled. */
  class Mean {
    const start: Val
    var sum: Val
    var count: nat
    var curContext: Dict
    /** The data parts filled since the last reset. */
    ghost var filled: seq<Val>

    ghost predicate Valid()
      reads this
    {
      SumOf(start, filled) == Success(sum) && count == |filled|
    }

    /** `__init__(start)`: the element is reset. */
    constructor (start: Val)
      ensures Valid()
      ensures this.start == start && sum == start && count == 0 && curContext == map[] && filled == []
    {
      this.start := start;
      sum := start;
      count := 0;
      curContext := map[];
      filled := [];
    }

    /** `fill(value)`: adds the data part, counts it and keeps the context. */
    method Fill(value: Val) returns (r: Result<()>)
      requires Valid()
      modifies this
      ensures Valid()
      ensures AddInPlace(old(sum), GetData(value)).Success? ==>
                && r.Success?
                && sum == AddInPlace(old(sum), GetData(value)).value
                && count == old(count) + 1
                && curContext == GetContext(value)
                && filled == old(filled) + [GetData(value)]
      ensures AddInPlace(old(sum), GetData(value)).Failure? ==>
                && r == Failure(AddInPlace(old(sum), GetData(value)).error)
                && sum == old(sum) && count == old(count) && curContext == old(curContext) && filled == old(filled)
    {
      var (data, context) := GetDataContext(value);
      var s := AddInPlace(sum, data);
      if s.Failure? {
        return Failure(s.error);
      }
      assert (filled + [data])[..|filled|] == filled;
      sum := s.value;
      count := count + 1;
      curContext := context;
      filled := filled + [data];
      return Success(());
    }

    /** `compute()`: the sum divided by the count, bare or with the last
        context; nothing filled is a LenaRuntimeError. */
    method Compute() returns (r: Result<Val>)
      requires Valid()
      ensures count == 0 ==> r == Failure(LenaRuntimeError)
      ensures count > 0 ==>
                var mean := Divide(SumOf(start, filled).value, |filled|);
                (r.Success? <==> mean.Success?) && (r.Success? ==> r.value == Output(mean.value, curContext))
    {
      if count == 0 {
        return Failure(LenaRuntimeError);
      }
      var mean := Divide(sum, count);
      if mean.Failure? {
        return Failure(mean.error);
      }
      return Success(Output(mean.value, curContext));
    }

    /** `reset()`: the sum is the start value again, the count zero and the
        context empty. */
    method Reset()
      modifies this
      ensures Valid()
      ensures sum == start && count == 0 && curContext == map[] && filled == []
    {
      sum := start;
      count := 0;
      curContext := map[];
      filled := [];
    }
  }

  /** Filling 1, 2 and 3 (the last with a context) into `Sum()` gives 6
      with that context. */
  method SumExample(context: Dict) returns (total: Val)
    requires context != map[]
    ensures total == Pair(VInt(6), context)
  {
    var s := new Sum(VInt(0));
    var _ := s.Fill(VInt(1));
    assert s.sum == VInt(1);
    var _ := s.Fill(VInt(2));
    assert s.sum == VInt(3);
    var _ := s.Fill(Pair(VInt(3), context));
    assert s.sum == VInt(6) && s.curContext == context;
    total := s.Compute();
  }

  /** Filling 1, 2 and 3 (the last with a context) into `Mean()` gives 2.0
      with that context; nothing filled cannot be averaged. */
  method MeanExample(context: Dict) returns (mean: Result<Val>, none: Result<Val>)
    requires context != map[]
    ensures mean == Success(Pair(VReal(2.0), context))
    ensures none == Failure(LenaRuntimeError)
  {
    var m := new Mean(VInt(0));
    none := m.Compute();
    var _ := m.Fill(VInt(1));
    assert m.sum == VInt(1);
    var _ := m.Fill(VInt(2));
    assert m.sum == VInt(3);
    var _ := m.Fill(Pair(VInt(3), context));
    assert m.sum == VInt(6) && m.count == 3 && m.curContext == context;
    mean := m.Compute();
  }
}
