// The loops of `FillRequest.run` (lena/core/adapters.py) and `Split.run`
// (lena/core/split.py), each proved to compute its specification in
// `CoreRun`.

module CoreLoops {
  import opened Wrappers
  import opened Values
  import opened CoreElements
  import opened CoreRun

  /** *outs* yielded before what *r* yields. */
  function AddOuts(outs: seq<Val>, r: Result<(Store, seq<Val>)>): Result<(Store, seq<Val>)>
  {
    if r.Failure? then r else Success((r.value.0, outs + r.value.1))
  }

  lemma AddOutsTwice(a: seq<Val>, b: seq<Val>, r: Result<(Store, seq<Val>)>)
    ensures AddOuts(a, AddOuts(b, r)) == AddOuts(a + b, r)
  {
    if r.Success? {
      assert a + (b + r.value.1) == (a + b) + r.value.1;
    }
  }

  lemma AddOutsNothing(r: Result<(Store, seq<Val>)>)
    ensures AddOuts([], r) == r
  {
    if r.Success? {
      assert [] + r.value.1 == r.value.1;
    }
  }

  /** `for val in vals: el.fill(val)`. */
  method FillLoop(el: Element, st: Store, name: string, vals: seq<Val>) returns (r: Result<Store>)
    ensures r == FillEach(el, st, name, vals)
  {
    var cur := st;
    var i := 0;
    while i < |vals|
      invariant 0 <= i <= |vals|
      invariant FillEach(el, st, name, vals) == FillEach(el, cur, name, vals[i..])
    {
      assert vals[i..][1..] == vals[i + 1..];
      var filled := Invoke(el, cur, name, [vals[i]]);
      if filled.Failure? {
        return Failure(filled.error);
      }
      cur := filled.value.0;
      i := i + 1;
    }
    return Success(cur);
  }

  /** `for val in buf: try: seq.fill(val) except LenaStopFill: break`:
      the new store and whether the branch asked to stop. */
  method FillUntilStopLoop(el: Element, st: Store, vals: seq<Val>) returns (r: Result<(Store, bool)>)
    ensures r == FillUntilStop(el, st, vals)
  {
    var cur := st;
    var i := 0;
    while i < |vals|
      invariant 0 <= i <= |vals|
      invariant FillUntilStop(el, st, vals) == FillUntilStop(el, cur, vals[i..])
    {
      assert vals[i..][1..] == vals[i + 1..];
      var filled := Invoke(el, cur, "fill", [vals[i]]);
      if filled == Failure(LenaStopFill) {
        return Success((cur, true));
      }
      if filled.Failure? {
        return Failure(filled.error);
      }
      cur := filled.value.0;
      i := i + 1;
    }
    return Success((cur, false));
  }

  /** One slice of `FillRequest.run`: the values filled and the request
      made, then the rest of the flow. */
  lemma FillRequestStep(el: Element, f: string, rq: Option<string>, bufsize: nat, st: Store,
                        flow: seq<Val>, filledOnce: bool, k: nat)
    requires bufsize >= 1 && |flow| > 0 && k == (if bufsize < |flow| then bufsize else |flow|)
    ensures FillEach(el, st, f, flow[..k]).Failure? ==>
              FillRequestRun(el, f, rq, bufsize, st, flow, filledOnce) == Failure(FillEach(el, st, f, flow[..k]).error)
    ensures FillEach(el, st, f, flow[..k]).Success? ==>
              var yielded := RequestYield(el, rq, FillEach(el, st, f, flow[..k]).value);
              FillRequestRun(el, f, rq, bufsize, st, flow, filledOnce)
                == if yielded.Failure? then Failure(yielded.error)
                   else AddOuts(yielded.value.1, FillRequestRun(el, f, rq, bufsize, yielded.value.0, flow[k..], true))
  {
  }

  /** `FillRequest.run(flow)`: slices of at most *bufsize* values are
      filled, and `request()` is yielded after each; an empty flow makes
      one request. */
  method RunFillRequest(el: Element, f: string, rq: Option<string>, bufsize: nat, st: Store, flow: seq<Val>)
    returns (r: Result<(Store, seq<Val>)>)
    requires bufsize >= 1
    ensures r == FillRequestRun(el, f, rq, bufsize, st, flow, false)
  {
    var cur := st;
    var rest := flow;
    var outs: seq<Val> := [];
    var filledOnce := false;
    AddOutsNothing(FillRequestRun(el, f, rq, bufsize, st, flow, false));
    while |rest| > 0
      invariant FillRequestRun(el, f, rq, bufsize, st, flow, false)
                == AddOuts(outs, FillRequestRun(el, f, rq, bufsize, cur, rest, filledOnce))
      decreases |rest|
    {
      var k := if bufsize < |rest| then bufsize else |rest|;
      FillRequestStep(el, f, rq, bufsize, cur, rest, filledOnce, k);
      var filled := FillLoop(el, cur, f, rest[..k]);
      if filled.Failure? {
        return Failure(filled.error);
      }
      var yielded := RequestYield(el, rq, filled.value);
      if yielded.Failure? {
        return Failure(yielded.error);
      }
      AddOutsTwice(outs, yielded.value.1, FillRequestRun(el, f, rq, bufsize, yielded.value.0, rest[k..], true));
      outs := outs + yielded.value.1;
      cur := yielded.value.0;
      rest := rest[k..];
      filledOnce := true;
    }
    if filledOnce {
      assert outs + [] == outs;
      return Success((cur, outs));
    }
    var yielded := RequestYield(el, rq, cur);
    if yielded.Failure? {
      return Failure(yielded.error);
    }
    return Success((yielded.value.0, outs + yielded.value.1));
  }

  // ------------------------------------------------------------------
  // Split.run

  /** The branches *kept* so far and *outs* yielded so far, before the
      rest of the pass in *r*. */
  function Keep(kept: seq<Branch>, outs: seq<Val>, r: Result<(seq<Branch>, Store, seq<Val>)>)
    : Result<(seq<Branch>, Store, seq<Val>)>
  {
    if r.Failure? then r else Success((kept + r.value.0, r.value.1, outs + r.value.2))
  }

  lemma KeepTwice(k1: seq<Branch>, o1: seq<Val>, k2: seq<Branch>, o2: seq<Val>,
                  r: Result<(seq<Branch>, Store, seq<Val>)>)
    ensures Keep(k1, o1, Keep(k2, o2, r)) == Keep(k1 + k2, o1 + o2, r)
  {
    if r.Success? {
      assert k1 + (k2 + r.value.0) == (k1 + k2) + r.value.0;
      assert o1 + (o2 + r.value.2) == (o1 + o2) + r.value.2;
    }
  }

  lemma KeepNothing(r: Result<(seq<Branch>, Store, seq<Val>)>)
    ensures Keep([], [], r) == r
  {
    if r.Success? {
      assert [] + r.value.0 == r.value.0 && [] + r.value.2 == r.value.2;
    }
  }

  /** The step of the branch at *ind*, then the pass over those after it. */
  lemma SplitBranchesStep(bound: nat, active: seq<Branch>, ind: nat, st: Store, buf: seq<Val>)
    requires Bounded(active, bound) && ind < |active|
    ensures Bounded(active[ind..], bound) && Bounded(active[ind + 1..], bound)
    ensures var step := BranchStep(bound, active[ind], st, buf);
            SplitBranches(bound, active[ind..], st, buf)
              == if step.Failure? then Failure(step.error)
                 else Keep(if step.value.0 then [] else [active[ind]], step.value.2,
                           SplitBranches(bound, active[ind + 1..], step.value.1, buf))
  {
    var rest := active[ind..];
    assert rest[0] == active[ind] && rest[1..] == active[ind + 1..];
    var step := BranchStep(bound, active[ind], st, buf);
    if step.Success? {
      var more := SplitBranches(bound, active[ind + 1..], step.value.1, buf);
      if more.Success? {
        assert [] + more.value.0 == more.value.0;
      }
    }
  }

  /** Deleting the branch at *ind*: those before it stay, those after it
      move down, and what is kept and yielded adds up. */
  lemma PassDone(bound: nat, active: seq<Branch>, ind: nat, outs: seq<Val>, o: seq<Val>,
                 r: Result<(seq<Branch>, Store, seq<Val>)>)
    requires Bounded(active, bound) && ind < |active|
    ensures var next := active[..ind] + active[ind + 1..];
            |next| == |active| - 1 && Bounded(next, bound)
            && next[..ind] == active[..ind] && next[ind..] == active[ind + 1..]
            && Keep(active[..ind], outs, Keep([], o, r)) == Keep(next[..ind], outs + o, r)
  {
    var next := active[..ind] + active[ind + 1..];
    assert next[..ind] == active[..ind] && next[ind..] == active[ind + 1..];
    forall j | 0 <= j < |next| ensures Size(next[j].el) <= bound {
      if j >= ind {
        assert next[j] == active[j + 1];
      }
    }
    KeepTwice(active[..ind], outs, [], o, r);
    assert active[..ind] + [] == active[..ind];
  }

  /** Keeping the branch at *ind*: the kept prefix grows by it. */
  lemma PassKept(active: seq<Branch>, ind: nat, outs: seq<Val>, o: seq<Val>,
                 r: Result<(seq<Branch>, Store, seq<Val>)>)
    requires ind < |active|
    ensures Keep(active[..ind], outs, Keep([active[ind]], o, r)) == Keep(active[..ind + 1], outs + o, r)
  {
    KeepTwice(active[..ind], outs, [active[ind]], o, r);
    assert active[..ind] + [active[ind]] == active[..ind + 1];
  }

  /** At the end of the pass, all branches left are kept. */
  lemma PassEnd(active: seq<Branch>, cur: Store, outs: seq<Val>)
    ensures Keep(active, outs, Success(([], cur, []))) == Success((active, cur, outs))
  {
    assert active + [] == active && outs + [] == outs;
  }

  /** One pass of a buffer over the active branches; a branch that is done
      (a source, or a fill that raised LenaStopFill) is deleted from the
      active list in place. */
  method RunBranches(bound: nat, active0: seq<Branch>, st: Store, buf: seq<Val>)
    returns (r: Result<(seq<Branch>, Store, seq<Val>)>)
    requires Bounded(active0, bound)
    ensures r == SplitBranches(bound, active0, st, buf)
  {
    var active := active0;
    var ind := 0;
    var cur := st;
    var outs: seq<Val> := [];
    KeepNothing(SplitBranches(bound, active0, st, buf));
    assert active[ind..] == active0;
    while ind < |active|
      invariant 0 <= ind <= |active| && Bounded(active, bound)
      invariant SplitBranches(bound, active0, st, buf)
                == Keep(active[..ind], outs, SplitBranches(bound, active[ind..], cur, buf))
      decreases |active| - ind
    {
      var step := BranchStep(bound, active[ind], cur, buf);
      SplitBranchesStep(bound, active, ind, cur, buf);
      if step.Failure? {
        return Failure(step.error);
      }
      var (done, st1, o) := step.value;
      if done {
        PassDone(bound, active, ind, outs, o, SplitBranches(bound, active[ind + 1..], st1, buf));
        active := active[..ind] + active[ind + 1..];
      } else {
        PassKept(active, ind, outs, o, SplitBranches(bound, active[ind + 1..], st1, buf));
        ind := ind + 1;
      }
      outs := outs + o;
      cur := st1;
    }
    assert active[ind..] == [];
    PassEnd(active[..ind], cur, outs);
    assert active[..ind] == active;
    return Success((active, cur, outs));
  }

  /** The branches left after the flow: sources (only when the flow was
      empty), FillCompute branches compute, and the others yield only if
      the flow was empty. */
  method FinishBranches(bound: nat, active: seq<Branch>, st: Store, flowWasEmpty: bool)
    returns (r: Result<(Store, seq<Val>)>)
    requires Bounded(active, bound)
    ensures r == SplitFinish(bound, active, st, flowWasEmpty)
  {
    var cur := st;
    var outs: seq<Val> := [];
    var i := 0;
    AddOutsNothing(SplitFinish(bound, active, st, flowWasEmpty));
    while i < |active|
      invariant 0 <= i <= |active|
      invariant SplitFinish(bound, active, st, flowWasEmpty)
                == AddOuts(outs, SplitFinish(bound, active[i..], cur, flowWasEmpty))
    {
      var step := FinishStep(bound, active[i], cur, flowWasEmpty);
      assert active[i..][1..] == active[i + 1..];
      if step.Failure? {
        return Failure(step.error);
      }
      AddOutsTwice(outs, step.value.1, SplitFinish(bound, active[i + 1..], step.value.0, flowWasEmpty));
      outs := outs + step.value.1;
      cur := step.value.0;
      i := i + 1;
    }
    assert outs + [] == outs;
    return Success((cur, outs));
  }

  /** `Split.run(flow)` with its buffers taken by `islice` from one
      iterator over the flow. */
  method RunSplit(bound: nat, active0: seq<Branch>, bufsize: Option<nat>, st: Store, flow: seq<Val>)
    returns (r: Result<(Store, seq<Val>)>)
    requires Bounded(active0, bound)
    ensures r == SplitBuffers(bound, active0, bufsize, st, flow, true)
  {
    var active := active0;
    var cur := st;
    var rest := flow;
    var outs: seq<Val> := [];
    var flowWasEmpty := true;
    AddOutsNothing(SplitBuffers(bound, active0, bufsize, st, flow, true));
    while |rest| > 0 && bufsize != Some(0)
      invariant Bounded(active, bound)
      invariant SplitBuffers(bound, active0, bufsize, st, flow, true)
                == AddOuts(outs, SplitBuffers(bound, active, bufsize, cur, rest, flowWasEmpty))
      decreases |rest|
    {
      var k := if bufsize.None? || bufsize.value >= |rest| then |rest| else bufsize.value;
      var pass := RunBranches(bound, active, cur, rest[..k]);
      if pass.Failure? {
        return Failure(pass.error);
      }
      var (active1, st1, o) := pass.value;
      AddOutsTwice(outs, o, SplitBuffers(bound, active1, bufsize, st1, rest[k..], false));
      outs := outs + o;
      active := active1;
      cur := st1;
      rest := rest[k..];
      flowWasEmpty := false;
    }
    var finished := FinishBranches(bound, active, cur, flowWasEmpty);
    if finished.Failure? {
      return Failure(finished.error);
    }
    return Success((finished.value.0, outs + finished.value.1));
  }
}
