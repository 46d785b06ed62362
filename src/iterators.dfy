// Adapters to iterators (lena/flow/iterators.py): Chain, CountFrom and ISlice.

module FlowIterators {
  import opened Wrappers
  import opened Values

  // ------------------------------------------------------------------
  // Chain

  /** The concatenation of the iterables, in order. */
  function Concat(parts: seq<seq<Val>>): (r: seq<Val>)
    ensures |parts| == 0 ==> r == []
    ensures |parts| > 0 ==> |r| >= |parts[0]| && r[..|parts[0]|] == parts[0]
  {
    if |parts| == 0 then [] else parts[0] + Concat(parts[1..])
  }

  /** Chaining a concatenation of argument lists chains each list: every
      value appears exactly once, in argument order. */
  lemma {:induction false} ConcatAppend(xs: seq<seq<Val>>, ys: seq<seq<Val>>)
    ensures Concat(xs + ys) == Concat(xs) + Concat(ys)
    decreases |xs|
  {
    if |xs| == 0 {
      assert xs + ys == ys;
    } else {
      assert (xs + ys)[1..] == xs[1..] + ys;
      ConcatAppend(xs[1..], ys);
    }
  }

  /** `Chain(*iterables)`: one chained iterator, made when the element is
      made and used up by the first call. */
  class Chain {
    var pending: seq<seq<Val>>

    constructor (iterables: seq<seq<Val>>)
      ensures pending == iterables
    {
      pending := iterables;
    }

    /** `__call__()`: the values not yet generated; a further call finds
        the chain exhausted. */
    method Call() returns (out: seq<Val>)
      modifies this
      ensures out == Concat(old(pending)) && pending == []
    {
      out := [];
      var i := 0;
      while i < |pending|
        invariant 0 <= i <= |pending|
        invariant Concat(pending) == out + Concat(pending[i..])
      {
        assert pending[i..][1..] == pending[i + 1..];
        out := out + pending[i];
        i := i + 1;
      }
      assert pending[i..] == [];
      pending := [];
    }
  }

  /** `Chain([1, 2, 3], ['a', 'b'])()` gives the five values, a second call
      nothing; an empty chain gives nothing. */
  method ChainExample() returns (first: seq<Val>, second: seq<Val>, empty: seq<Val>)
    ensures first == [VInt(1), VInt(2), VInt(3), VStr("a"), VStr("b")]
    ensures second == [] && empty == []
  {
    var nums := [VInt(1), VInt(2), VInt(3)];
    var lets := [VStr("a"), VStr("b")];
    var c := new Chain([nums, lets]);
    first := c.Call();
    assert [nums, lets][1..] == [lets] && [lets][1..] == [];
    assert lets + [] == lets;
    second := c.Call();
    var e := new Chain([]);
    empty := e.Call();
  }

  // ------------------------------------------------------------------
  // CountFrom

  /** `CountFrom(start, step)`: an endless count, shared by all calls. */
  class CountFrom {
    var current: int
    const step: int

    constructor (start: int, step: int)
      ensures current == start && this.step == step
    {
      current := start;
      this.step := step;
    }

    /** The next *n* values of the count: `start + k * step`, continuing
        from the values taken before. */
    method Take(n: nat) returns (out: seq<Val>)
      modifies this
      ensures |out| == n
      ensures forall k :: 0 <= k < n ==> out[k] == VInt(old(current) + k * step)
      ensures current == old(current) + n * step
    {
      out := [];
      var i := 0;
      while i < n
        invariant 0 <= i <= n && |out| == i
        invariant current == old(current) + i * step
        invariant forall k :: 0 <= k < i ==> out[k] == VInt(old(current) + k * step)
      {
        out := out + [VInt(current)];
        current := current + step;
        i := i + 1;
      }
    }
  }

  /** `CountFrom(start=10, step=2)` gives 10, 12, 14, 16, 18 first. */
  method CountFromExample() returns (out: seq<Val>)
    ensures out == [VInt(10), VInt(12), VInt(14), VInt(16), VInt(18)]
  {
    var c := new CountFrom(10, 2);
    out := c.Take(5);
  }

  // ------------------------------------------------------------------
  // ISlice

  /** The arguments of `itertools.islice` once checked. */
  datatype Slice = Slice(start: nat, stop: Option<nat>, step: nat)

  /** `islice(iterable, *args)` with one to three arguments, `None` for a
      missing start, stop or step: a wrong number of arguments is a
      TypeError, a negative bound or a step below one a ValueError. */
  function MakeSlice(args: seq<Option<int>>): (r: Result<Slice>)
    ensures |args| == 0 || |args| > 3 ==> r == Failure(PyTypeError)
    ensures r.Success? ==> r.value.step >= 1
    ensures |args| == 1 && r.Success? ==> r.value.start == 0 && r.value.step == 1
    ensures |args| == 1 && args[0].Some? ==> (r.Success? <==> args[0].value >= 0)
    ensures 2 <= |args| <= 3 && r.Success? ==>
              r.value.start == (if args[0].Some? then args[0].value else 0)
              && r.value.step == (if |args| == 3 && args[2].Some? then args[2].value else 1)
    ensures r.Failure? && 1 <= |args| <= 3 ==> r.error == PyValueError
  {
    if |args| == 0 || |args| > 3 then Failure(PyTypeError)
    else
      var stop := if |args| == 1 then args[0] else args[1];
      var start := if |args| == 1 then None else args[0];
      var step := if |args| == 3 then args[2] else None;
      if stop.Some? && stop.value < 0 then Failure(PyValueError)
      else if start.Some? && start.value < 0 then Failure(PyValueError)
      else if step.Some? && step.value < 1 then Failure(PyValueError)
      else
        Success(Slice(if start.Some? then start.value else 0,
                      if stop.Some? then Some(stop.value as nat) else None,
                      if step.Some? then step.value else 1))
  }

  /** Whether position *i* is one the slice keeps: `i in range(start, stop, step)`. */
  predicate InRange(sl: Slice, i: int)
  {
    i >= sl.start && (sl.stop.None? || i < sl.stop.value) && Divides(sl.step, i - sl.start)
  }

  /** *x* is a multiple of *s* (counted without division). */
  predicate Divides(s: int, x: int)
    decreases if x > 0 then x else 0
  {
    s >= 1 && x >= 0 && (x == 0 || (x >= s && Divides(s, x - s)))
  }

  lemma {:induction false} DividesOne(x: int)
    requires x >= 0
    ensures Divides(1, x)
    decreases x
  {
    if x > 0 {
      DividesOne(x - 1);
    }
  }

  /** Two multiples of *s* are at least *s* apart. */
  lemma {:induction false} MultiplesApart(s: int, x: int, y: int)
    requires Divides(s, x) && Divides(s, y) && x < y
    ensures x + s <= y
    decreases x
  {
    if x > 0 {
      MultiplesApart(s, x - s, y - s);
    }
  }

  /** No position from *i* on is kept. */
  predicate Exhausted(sl: Slice, i: int)
  {
    sl.stop.Some? && forall j {:trigger InRange(sl, j)} :: i <= j < sl.stop.value ==> !InRange(sl, j)
  }

  /** The values at the kept positions, the first value being at
      position *i0*. */
  function SliceFrom(sl: Slice, vals: seq<Val>, i0: int): (r: seq<Val>)
    ensures |r| <= |vals|
    decreases |vals|
  {
    if |vals| == 0 then []
    else (if InRange(sl, i0) then [vals[0]] else []) + SliceFrom(sl, vals[1..], i0 + 1)
  }

  /** `ISlice.run(flow)`: `islice(flow, *args)`. */
  function SliceRun(sl: Slice, flow: seq<Val>): (r: seq<Val>)
    ensures r == SliceFrom(sl, flow, 0)
    ensures |r| <= |flow|
  {
    SliceFrom(sl, flow, 0)
  }

  /** Slicing splits over a concatenation: with the one-value case this
      says the slice keeps exactly the values at kept positions, in order. */
  lemma {:induction false} SliceFromAppend(sl: Slice, a: seq<Val>, b: seq<Val>, i0: int)
    ensures SliceFrom(sl, a + b, i0) == SliceFrom(sl, a, i0) + SliceFrom(sl, b, i0 + |a|)
    decreases |a|
  {
    if |a| == 0 {
      assert a + b == b;
    } else {
      assert (a + b)[1..] == a[1..] + b;
      SliceFromAppend(sl, a[1..], b, i0 + 1);
    }
  }

  lemma SliceFromOne(sl: Slice, v: Val, i: int)
    ensures SliceFrom(sl, [v], i) == if InRange(sl, i) then [v] else []
  {
    assert [v][1..] == [];
  }

  /** The slice of one more value is the slice so far plus that value
      when its position is kept. */
  lemma SliceFromSnoc(sl: Slice, vals: seq<Val>, i: nat, i0: int)
    requires i < |vals|
    ensures SliceFrom(sl, vals[..i + 1], i0)
              == SliceFrom(sl, vals[..i], i0) + (if InRange(sl, i0 + i) then [vals[i]] else [])
  {
    SliceFromOne(sl, vals[i], i0 + i);
    SliceFromAppend(sl, vals[..i], [vals[i]], i0);
    assert vals[..i + 1] == vals[..i] + [vals[i]];
  }

  lemma {:induction false} SliceNoneBefore(sl: Slice, flow: seq<Val>, i0: int)
    requires i0 + |flow| <= sl.start
    ensures SliceFrom(sl, flow, i0) == []
    decreases |flow|
  {
    if |flow| > 0 {
      SliceNoneBefore(sl, flow[1..], i0 + 1);
    }
  }

  lemma {:induction false} SliceNoneAfter(sl: Slice, flow: seq<Val>, i0: int)
    requires sl.stop.Some? && i0 >= sl.stop.value
    ensures SliceFrom(sl, flow, i0) == []
    decreases |flow|
  {
    if |flow| > 0 {
      SliceNoneAfter(sl, flow[1..], i0 + 1);
    }
  }

  lemma {:induction false} SliceAllKept(sl: Slice, flow: seq<Val>, i0: int)
    requires sl.step == 1 && sl.start <= i0 && (sl.stop.None? || i0 + |flow| <= sl.stop.value)
    ensures SliceFrom(sl, flow, i0) == flow
    decreases |flow|
  {
    if |flow| > 0 {
      DividesOne(i0 - sl.start);
      SliceAllKept(sl, flow[1..], i0 + 1);
      assert [flow[0]] + flow[1..] == flow;
    }
  }

  /** With step one the slice is `flow[start:stop]`. */
  lemma SliceStepOne(sl: Slice, flow: seq<Val>)
    requires sl.step == 1
    ensures var lo := if sl.start <= |flow| then sl.start else |flow|;
            var hi := if sl.stop.None? || sl.stop.value >= |flow| then |flow|
                      else if sl.stop.value >= lo then sl.stop.value else lo;
            SliceRun(sl, flow) == flow[lo..hi]
  {
    var lo := if sl.start <= |flow| then sl.start else |flow|;
    var hi := if sl.stop.None? || sl.stop.value >= |flow| then |flow|
              else if sl.stop.value >= lo then sl.stop.value else lo;
    assert flow == flow[..lo] + (flow[lo..hi] + flow[hi..]);
    SliceFromAppend(sl, flow[..lo], flow[lo..hi] + flow[hi..], 0);
    SliceFromAppend(sl, flow[lo..hi], flow[hi..], lo);
    SliceNoneBefore(sl, flow[..lo], 0);
    if hi > lo {
      SliceAllKept(sl, flow[lo..hi], lo);
    } else {
      assert flow[lo..hi] == [];
    }
    if hi < |flow| {
      SliceNoneAfter(sl, flow[hi..], hi);
    } else {
      assert flow[hi..] == [];
    }
  }

  /** Once no position is left, none is left later either. */
  lemma ExhaustedStays(sl: Slice, i: int, j: int)
    requires Exhausted(sl, i) && i <= j
    ensures Exhausted(sl, j) && !InRange(sl, j)
  {
    if j < sl.stop.value {
      assert !InRange(sl, j);
    }
  }

  /** `ISlice(*args)` used through `fill_into`: the index of the call,
      the last index drawn from `islice(count(0), *args)`, and that
      iterator's own position. */
  class ISlice {
    const sl: Slice
    var index: int
    var nextIndex: int
    /** The index `islice(count(0), *args)` yields next, unless it has
        passed the stop. */
    var candidate: int

    /** The indices drawn are the kept positions in turn, and the last one
        drawn is the next call's index or later. */
    predicate Valid()
      reads this
    {
      sl.step >= 1 && index >= 0 && candidate >= sl.start && Divides(sl.step, candidate - sl.start)
      && (candidate == sl.start ==> index == 0 && nextIndex == -1)
      && (candidate > sl.start ==>
            nextIndex == candidate - sl.step && nextIndex >= sl.start
            && index <= nextIndex + 1
            && (sl.stop.Some? ==> nextIndex < sl.stop.value)
            && (nextIndex > sl.start ==> nextIndex - sl.step < index))
    }

    constructor (sl: Slice)
      requires sl.step >= 1
      ensures Valid() && this.sl == sl && index == 0
    {
      this.sl := sl;
      index := 0;
      nextIndex := -1;
      candidate := sl.start;
    }

    /** Up to the last index drawn, only that index is kept. */
    lemma KeptIsNext()
      requires Valid() && candidate > sl.start && index <= nextIndex
      ensures InRange(sl, index) <==> index == nextIndex
      ensures InRange(sl, nextIndex) || (sl.stop.Some? && nextIndex >= sl.stop.value)
    {
      assert Divides(sl.step, nextIndex - sl.start);
      if index < nextIndex && InRange(sl, index) {
        MultiplesApart(sl.step, index - sl.start, nextIndex - sl.start);
      }
    }

    /** `fill_into(element, value)`: the values filled into the element,
        `[value]` exactly when the call's index is kept; LenaStopFill once
        no index is left, and then nothing changes. */
    method FillInto(value: Val) returns (r: Result<seq<Val>>)
      requires Valid()
      modifies this
      ensures Valid()
      ensures r.Failure? <==> Exhausted(sl, old(index))
      ensures r.Failure? ==> r.error == LenaStopFill && index == old(index)
      ensures r.Success? ==> index == old(index) + 1
      ensures r.Success? ==> (r.value == if InRange(sl, old(index)) then [value] else [])
    {
      if index > nextIndex {
        if sl.stop.Some? && candidate >= sl.stop.value {
          forall j | index <= j < sl.stop.value
            ensures !InRange(sl, j)
          {
            if InRange(sl, j) && candidate > sl.start {
              MultiplesApart(sl.step, nextIndex - sl.start, j - sl.start);
              MultiplesApart(sl.step, j - sl.start, candidate - sl.start);
            }
          }
          return Failure(LenaStopFill);
        }
        nextIndex := candidate;
        candidate := candidate + sl.step;
        assert Divides(sl.step, candidate - sl.start);
      }
      KeptIsNext();
      if sl.stop.Some? {
        assert InRange(sl, nextIndex) && index <= nextIndex < sl.stop.value;
      }
      if index == nextIndex {
        r := Success([value]);
      } else {
        r := Success([]);
      }
      index := index + 1;
    }

    /** Filling the values one by one fills the slice of them, or stops
        at the first call that finds no index left. */
    method FillAll(vals: seq<Val>) returns (r: Result<seq<Val>>)
      requires Valid()
      modifies this
      ensures Valid()
      ensures r.Failure? <==> |vals| > 0 && Exhausted(sl, old(index) + |vals| - 1)
      ensures r.Failure? ==> r.error == LenaStopFill
      ensures r.Success? ==> r.value == SliceFrom(sl, vals, old(index)) && index == old(index) + |vals|
    {
      var filled: seq<Val> := [];
      var i := 0;
      while i < |vals|
        invariant 0 <= i <= |vals| && Valid()
        invariant index == old(index) + i
        invariant filled == SliceFrom(sl, vals[..i], old(index))
        invariant i > 0 ==> !Exhausted(sl, old(index) + i - 1)
      {
        var step := FillInto(vals[i]);
        if step.Failure? {
          ExhaustedStays(sl, old(index) + i, old(index) + |vals| - 1);
          return Failure(step.error);
        }
        SliceFromSnoc(sl, vals, i, old(index));
        filled := filled + step.value;
        i := i + 1;
      }
      assert vals[..i] == vals;
      return Success(filled);
    }
  }

  function Range(lo: int, n: nat): (r: seq<Val>)
    ensures |r| == n && forall k :: 0 <= k < n ==> r[k] == VInt(lo + k)
    decreases n
  {
    if n == 0 then [] else [VInt(lo)] + Range(lo + 1, n - 1)
  }

  /** `ISlice(a, b)` filled with 0, ..., b - 1 fills a, ..., b - 1 (for
      instance 10, ..., 14 for `ISlice(10, 15)`); one more value raises
      LenaStopFill. */
  method ISliceExample(a: nat, b: nat) returns (filled: Result<seq<Val>>, more: Result<seq<Val>>)
    requires a < b
    ensures MakeSlice([Some(a), Some(b)]) == Success(Slice(a, Some(b), 1))
    ensures filled == Success(Range(a, b - a))
    ensures more == Failure(LenaStopFill)
  {
    var sl := Slice(a, Some(b), 1);
    var isl := new ISlice(sl);
    RangeSlice(a, b);
    filled := isl.FillAll(Range(0, b));
    more := isl.FillInto(VInt(b));
  }

  /** The slice from *a* to *b* of 0, ..., b - 1 is a, ..., b - 1: the
      last position is kept and the next is past the stop. */
  lemma RangeSlice(a: nat, b: nat)
    requires a < b
    ensures !Exhausted(Slice(a, Some(b), 1), b - 1) && Exhausted(Slice(a, Some(b), 1), b)
    ensures SliceFrom(Slice(a, Some(b), 1), Range(0, b), 0) == Range(a, b - a)
  {
    var sl := Slice(a, Some(b), 1);
    var flow := Range(0, b);
    DividesOne(b - 1 - a);
    assert InRange(sl, b - 1);
    SliceStepOne(sl, flow);
    assert flow[a..b] == Range(a, b - a);
  }
}
