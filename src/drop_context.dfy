// `DropContext` (lena/flow/drop_context.py): an inner sequence sees only
// the data parts, and the context is restored around its results.

module FlowDropContext {
  import opened Wrappers
  import opened Values
  import opened FlowFunctions
  import opened CoreRun

  /** `for data, context in iterable`: a value unpacked into two parts. */
  function Unpack(v: Val): (r: Result<(Val, Val)>)
    ensures HasContext(v) ==> r == Success((GetData(v), VDict(GetContext(v))))
    ensures r.Failure? ==> r.error == PyTypeError || r.error == PyValueError
  {
    var items :- Iterate(v);
    if |items| != 2 then Failure(PyValueError) else Success((items[0], items[1]))
  }

  /** What the inner sequence does, as the outer one sees it: it yields
      `result` after pulling `pulled` inputs in all. */
  datatype Emit = Emit(result: Val, pulled: nat)

  /** The inner sequence pulls inputs in order, never more than it is
      given, and has pulled `finalPulled` when it stops. */
  predicate Schedule(trace: seq<Emit>, finalPulled: nat, n: nat)
  {
    finalPulled <= n
    && (forall k :: 0 <= k < |trace| ==> trace[k].pulled <= finalPulled)
    && (forall k, l :: 0 <= k < l < |trace| ==> trace[k].pulled <= trace[l].pulled)
  }

  /** Pulling the inputs `from .. to - 1`: each one's context becomes the
      current context. */
  function PullTo(cur: Val, flow: seq<Val>, from: nat, to: nat): (r: Result<Val>)
    requires from <= to <= |flow|
    decreases (to as int) - (from as int)
  {
    if from == to then Success(cur)
    else
      var (_, c) :- Unpack(flow[from]);
      PullTo(c, flow, from + 1, to)
  }

  /** One result of the inner sequence paired with the current context;
      a result's own context updates the current one (it is the same
      dictionary), and a current context that is not a dictionary cannot
      be updated. */
  function Restore(cur: Val, result: Val): (r: Result<(Val, Val)>)
    ensures !HasContext(result) ==> r == Success((cur, VTuple([result, cur])))
    ensures HasContext(result) && cur.VDict? ==>
              r == Success((VDict(cur.m + GetContext(result)), Pair(GetData(result), cur.m + GetContext(result))))
    ensures HasContext(result) && !cur.VDict? ==> r == Failure(PyAttributeError)
  {
    if HasContext(result) then
      if cur.VDict? then
        var c := cur.m + result.items[1].m;
        Success((VDict(c), VTuple([result.items[0], VDict(c)])))
      else Failure(PyAttributeError)
    else Success((cur, VTuple([result, cur])))
  }

  /** `DropContext.run(flow)`: the outputs, and the current context at the
      end. */
  function DropRun(cur: Val, flow: seq<Val>, trace: seq<Emit>, done: nat, finalPulled: nat): (r: Result<(Val, seq<Val>)>)
    requires Schedule(trace, finalPulled, |flow|)
    requires done <= finalPulled && (|trace| > 0 ==> done <= trace[0].pulled)
    ensures r.Success? ==> |r.value.1| == |trace|
    decreases |trace|
  {
    if |trace| == 0 then
      var c :- PullTo(cur, flow, done, finalPulled);
      Success((c, []))
    else
      var c1 :- PullTo(cur, flow, done, trace[0].pulled);
      var (c2, out) :- Restore(c1, trace[0].result);
      var (c3, rest) :- DropRun(c2, flow, trace[1..], trace[0].pulled, finalPulled);
      Success((c3, [out] + rest))
  }

  function Prepend(outs: seq<Val>, r: Result<(Val, seq<Val>)>): Result<(Val, seq<Val>)>
  {
    if r.Failure? then r else Success((r.value.0, outs + r.value.1))
  }

  class DropContext {
    var curContext: Val

    /** `DropContext(*args)`: no input has been pulled yet. */
    constructor ()
      ensures curContext == VNone
    {
      curContext := VNone;
    }

    /** `_make_iterator`: pulling inputs up to position *to*. */
    method PullInputs(flow: seq<Val>, from: nat, to: nat) returns (r: Result<()>)
      requires from <= to <= |flow|
      modifies this
      ensures PullTo(old(curContext), flow, from, to).Success? ==> r.Success? && curContext == PullTo(old(curContext), flow, from, to).value
      ensures PullTo(old(curContext), flow, from, to).Failure? ==> r == Failure(PullTo(old(curContext), flow, from, to).error)
    {
      var i := from;
      while i < to
        invariant from <= i <= to
        invariant PullTo(old(curContext), flow, from, to) == PullTo(curContext, flow, i, to)
      {
        var u := Unpack(flow[i]);
        if u.Failure? {
          return Failure(u.error);
        }
        curContext := u.value.1;
        i := i + 1;
      }
      return Success(());
    }

    /** `run(flow)`, with the inner sequence's behaviour given as the
        schedule of its results. */
    method Run(flow: seq<Val>, trace: seq<Emit>, finalPulled: nat) returns (r: Result<seq<Val>>)
      requires Schedule(trace, finalPulled, |flow|)
      modifies this
      ensures DropRun(old(curContext), flow, trace, 0, finalPulled).Success? ==>
                r == Success(DropRun(old(curContext), flow, trace, 0, finalPulled).value.1)
                && curContext == DropRun(old(curContext), flow, trace, 0, finalPulled).value.0
      ensures DropRun(old(curContext), flow, trace, 0, finalPulled).Failure? ==>
                r == Failure(DropRun(old(curContext), flow, trace, 0, finalPulled).error)
    {
      var outs: seq<Val> := [];
      var done: nat := 0;
      var k := 0;
      assert trace[0..] == trace;
      PrependNothing(DropRun(curContext, flow, trace, 0, finalPulled));
      while k < |trace|
        invariant 0 <= k <= |trace|
        invariant Schedule(trace[k..], finalPulled, |flow|)
        invariant done <= finalPulled && (k < |trace| ==> done <= trace[k].pulled)
        invariant DropRun(old(curContext), flow, trace, 0, finalPulled)
                  == Prepend(outs, DropRun(curContext, flow, trace[k..], done, finalPulled))
      {
        ghost var cur := curContext;
        var p := PullInputs(flow, done, trace[k].pulled);
        if p.Failure? {
          return Failure(p.error);
        }
        var restored := Restore(curContext, trace[k].result);
        if restored.Failure? {
          return Failure(restored.error);
        }
        DropRunStep(cur, flow, trace[k..], done, finalPulled, curContext, restored.value.0, restored.value.1);
        assert trace[k..][1..] == trace[k + 1..];
        PrependTwice(outs, [restored.value.1], DropRun(restored.value.0, flow, trace[k + 1..], trace[k].pulled, finalPulled));
        curContext := restored.value.0;
        outs := outs + [restored.value.1];
        done := trace[k].pulled;
        k := k + 1;
      }
      var p := PullInputs(flow, done, finalPulled);
      if p.Failure? {
        return Failure(p.error);
      }
      assert outs + [] == outs;
      return Success(outs);
    }
  }

  lemma PrependNothing(r: Result<(Val, seq<Val>)>)
    ensures Prepend([], r) == r
  {
    if r.Success? {
      assert [] + r.value.1 == r.value.1;
    }
  }

  lemma PrependTwice(a: seq<Val>, b: seq<Val>, r: Result<(Val, seq<Val>)>)
    ensures Prepend(a, Prepend(b, r)) == Prepend(a + b, r)
  {
    if r.Success? {
      assert a + (b + r.value.1) == (a + b) + r.value.1;
    }
  }

  /** One result of the inner sequence: the inputs pulled before it, then
      the result restored, then the rest. */
  lemma DropRunStep(cur: Val, flow: seq<Val>, trace: seq<Emit>, done: nat, finalPulled: nat, c1: Val, c2: Val, out: Val)
    requires Schedule(trace, finalPulled, |flow|) && |trace| > 0
    requires done <= finalPulled && done <= trace[0].pulled
    requires PullTo(cur, flow, done, trace[0].pulled) == Success(c1)
    requires Restore(c1, trace[0].result) == Success((c2, out))
    ensures Schedule(trace[1..], finalPulled, |flow|)
    ensures DropRun(cur, flow, trace, done, finalPulled)
            == Prepend([out], DropRun(c2, flow, trace[1..], trace[0].pulled, finalPulled))
  {
    assert forall k :: 0 <= k < |trace| - 1 ==> trace[1..][k] == trace[k + 1];
  }

  /** The context of the last input pulled, or the initial one. */
  function ContextAt(cur: Val, flow: seq<Val>, pulled: nat): Val
    requires pulled <= |flow|
    requires forall i :: 0 <= i < pulled ==> HasContext(flow[i])
  {
    if pulled == 0 then cur else VDict(GetContext(flow[pulled - 1]))
  }

  lemma {:induction false} PullToContexts(cur: Val, flow: seq<Val>, from: nat, to: nat)
    requires from <= to <= |flow|
    requires forall i :: 0 <= i < to ==> HasContext(flow[i])
    ensures PullTo(cur, flow, from, to) == Success(if from == to then cur else ContextAt(cur, flow, to))
    decreases (to as int) - (from as int)
  {
    if from < to {
      PullToContexts(VDict(GetContext(flow[from])), flow, from + 1, to);
    }
  }

  /** When every input is a (data, context) pair and the inner sequence
      adds no context, each output is its result paired with the context
      of the input pulled last before it was yielded. */
  lemma {:induction false} DropRunPairs(cur: Val, flow: seq<Val>, trace: seq<Emit>, done: nat, finalPulled: nat)
    requires Schedule(trace, finalPulled, |flow|)
    requires done <= finalPulled && (|trace| > 0 ==> done <= trace[0].pulled)
    requires forall i :: 0 <= i < |flow| ==> HasContext(flow[i])
    requires forall k :: 0 <= k < |trace| ==> !HasContext(trace[k].result)
    requires done > 0 ==> cur == ContextAt(cur, flow, done)
    ensures DropRun(cur, flow, trace, done, finalPulled).Success?
    ensures var outs := DropRun(cur, flow, trace, done, finalPulled).value.1;
            |outs| == |trace|
            && forall k :: 0 <= k < |trace| ==> outs[k] == VTuple([trace[k].result, ContextAt(cur, flow, trace[k].pulled)])
    decreases |trace|
  {
    PullToContexts(cur, flow, done, finalPulled);
    if |trace| > 0 {
      PullToContexts(cur, flow, done, trace[0].pulled);
      var c1 := ContextAt(cur, flow, trace[0].pulled);
      assert PullTo(cur, flow, done, trace[0].pulled) == Success(c1);
      assert Schedule(trace[1..], finalPulled, |flow|);
      assert forall k :: 0 <= k < |trace| - 1 ==> trace[1..][k] == trace[k + 1];
      DropRunPairs(c1, flow, trace[1..], trace[0].pulled, finalPulled);
      var rest := DropRun(c1, flow, trace[1..], trace[0].pulled, finalPulled).value.1;
      forall k | 0 <= k < |trace[1..]|
        ensures rest[k] == VTuple([trace[k + 1].result, ContextAt(cur, flow, trace[k + 1].pulled)])
      {
        assert trace[k + 1].pulled >= trace[0].pulled;
      }
    }
  }

  /** An inner sequence that maps each value as it is pulled: every output
      carries the context of its own input. */
  lemma {:induction false} DropMapEach(flow: seq<Val>, g: Val -> Val, trace: seq<Emit>)
    requires forall i :: 0 <= i < |flow| ==> HasContext(flow[i]) && !HasContext(g(GetData(flow[i])))
    requires |trace| == |flow| && forall k :: 0 <= k < |flow| ==> trace[k] == Emit(g(GetData(flow[k])), k + 1)
    ensures DropRun(VNone, flow, trace, 0, |flow|).Success?
    ensures forall k :: 0 <= k < |flow| ==>
              DropRun(VNone, flow, trace, 0, |flow|).value.1[k] == Pair(g(GetData(flow[k])), GetContext(flow[k]))
  {
    assert Schedule(trace, |flow|, |flow|);
    DropRunPairs(VNone, flow, trace, 0, |flow|);
  }

  /** An inner sequence that yields only after the whole flow (a sum, a
      histogram): every output carries the context of the last input. */
  lemma {:induction false} DropAfterAll(flow: seq<Val>, trace: seq<Emit>)
    requires |flow| > 0
    requires forall i :: 0 <= i < |flow| ==> HasContext(flow[i])
    requires forall k :: 0 <= k < |trace| ==> trace[k].pulled == |flow| && !HasContext(trace[k].result)
    ensures DropRun(VNone, flow, trace, 0, |flow|).Success?
    ensures forall k :: 0 <= k < |trace| ==>
              DropRun(VNone, flow, trace, 0, |flow|).value.1[k] == Pair(trace[k].result, GetContext(flow[|flow| - 1]))
  {
    assert Schedule(trace, |flow|, |flow|);
    DropRunPairs(VNone, flow, trace, 0, |flow|);
  }

  /** A result's own context is merged into the current one, which keeps
      the update for the results after it. */
  lemma RestoreMerges(c: Dict, data: Val, own: Dict, next: Val)
    requires !HasContext(next)
    ensures Restore(VDict(c), Pair(data, own)) == Success((VDict(c + own), Pair(data, c + own)))
    ensures Restore(VDict(c + own), next) == Success((VDict(c + own), Pair(next, c + own)))
  {
  }
}
