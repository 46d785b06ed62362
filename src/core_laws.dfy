// Laws of running Lena sequences: composition of `Sequence.run`, one call
// per value for callables, the batching of `FillRequest.run`, the chaining
// of `FillSeq.fill`, and what `Split.run` yields for mapping and
// accumulating branches (the behaviour the tests of lena/core describe).

module CoreLaws {
  import opened Wrappers
  import opened Values
  import opened CoreElements
  import opened CoreRun
  import opened CoreBuild

  // ------------------------------------------------------------------
  // Sequence.run

  /** The rest of a run after a first part. */
  function ThenRun(r: Result<(Store, seq<Val>)>, els: seq<Element>): Result<(Store, seq<Val>)>
  {
    if r.Failure? then r else RunAll(els, r.value.0, r.value.1)
  }

  /** Running a concatenation of sequences is running one after the other:
      `Sequence(*xs, *ys).run(flow) == Sequence(*ys).run(Sequence(*xs).run(flow))`. */
  lemma {:induction false} RunAllAppend(xs: seq<Element>, ys: seq<Element>, st: Store, flow: seq<Val>)
    ensures RunAll(xs + ys, st, flow) == ThenRun(RunAll(xs, st, flow), ys)
    decreases |xs|
  {
    if |xs| == 0 {
      assert xs + ys == ys;
    } else {
      assert (xs + ys)[0] == xs[0];
      assert (xs + ys)[1..] == xs[1..] + ys;
      var first := RunFlow(xs[0], st, flow);
      if first.Success? {
        RunAllAppend(xs[1..], ys, first.value.0, first.value.1);
      }
    }
  }

  /** `Sequence(*els).run(flow)` runs the elements in turn. */
  lemma RunSequence(id: nat, els: seq<Element>, st: Store, flow: seq<Val>)
    ensures RunFlow(Sequence(id, els), st, flow) == RunAll(els, st, flow)
  {
    var r := RunAll(els, st, flow);
    if r.Success? {
      assert Invoke(Sequence(id, els), st, "run", flow) == Success((r.value.0, VList(r.value.1)));
    }
  }

  // ------------------------------------------------------------------
  // Callables

  function MapVals(g: Val -> Val, vs: seq<Val>): (r: seq<Val>)
    ensures |r| == |vs|
    ensures forall i :: 0 <= i < |vs| ==> r[i] == g(vs[i])
  {
    if |vs| == 0 then [] else [g(vs[0])] + MapVals(g, vs[1..])
  }

  /** A stateless callable element `lambda x: g(x)`. */
  function FnEl(id: nat, g: Val -> Val): Element
  {
    User(id, map["__call__" := (s: Val, args: seq<Val>) =>
                   if |args| == 1 then Success((s, g(args[0]))) else Failure(PyTypeError)])
  }

  /** A callable called on every value of a flow yields one output per
      value, in order, and a stateless one leaves the store as it was. */
  lemma {:induction false} CallEachMaps(id: nat, g: Val -> Val, st: Store, flow: seq<Val>)
    ensures CoreRun.CallEach(FnEl(id, g), st, flow) == Success((st, MapVals(g, flow)))
    decreases |flow|
  {
    if |flow| > 0 {
      CallEachMaps(id, g, st, flow[1..]);
    }
  }

  /** `Run(f)` for a callable *f* maps the flow. */
  lemma RunCallableMaps(rid: nat, id: nat, g: Val -> Val, st: Store, flow: seq<Val>)
    ensures RunFlow(Run(rid, FnEl(id, g), CallEach), st, flow) == Success((st, MapVals(g, flow)))
  {
    CallEachMaps(id, g, st, flow);
    var e := Run(rid, FnEl(id, g), CallEach);
    assert RunByMode(FnEl(id, g), CallEach, st, flow) == Success((st, MapVals(g, flow)));
    assert Invoke(e, st, "run", flow) == Success((st, VList(MapVals(g, flow))));
  }

  /** `Sequence(f)` for a callable *f*: a branch that maps its input. */
  function MapSeq(sid: nat, rid: nat, id: nat, g: Val -> Val): Element
  {
    Sequence(sid, [Run(rid, FnEl(id, g), CallEach)])
  }

  lemma MapSeqMaps(sid: nat, rid: nat, id: nat, g: Val -> Val, st: Store, flow: seq<Val>)
    ensures RunFlow(MapSeq(sid, rid, id, g), st, flow) == Success((st, MapVals(g, flow)))
  {
    var els := [Run(rid, FnEl(id, g), CallEach)];
    RunCallableMaps(rid, id, g, st, flow);
    assert els[1..] == [];
    assert RunAll(els, st, flow) == RunAll([], st, MapVals(g, flow));
    assert Invoke(MapSeq(sid, rid, id, g), st, "run", flow) == Success((st, VList(MapVals(g, flow))));
  }

  // ------------------------------------------------------------------
  // FillCompute elements: an accumulator

  function IntOf(v: Val): int
  {
    if v.VInt? then v.i else 0
  }

  /** A FillCompute element that adds `step(value)` for every value filled
      and computes `[total]` (`Sum` with `step(x) == x`, `Count` with
      `step(x) == 1`); `reset()` starts again from zero. */
  function Acc(id: nat, step: Val -> int): Element
  {
    User(id, map[
      "fill" := (s: Val, args: seq<Val>) =>
        if |args| == 1 then Success((VInt(IntOf(s) + step(args[0])), VNone)) else Failure(PyTypeError),
      "compute" := (s: Val, args: seq<Val>) => Success((s, VList([VInt(IntOf(s))]))),
      "reset" := (s: Val, args: seq<Val>) => Success((VInt(0), VNone))])
  }

  function Total(step: Val -> int, vals: seq<Val>): int
  {
    if |vals| == 0 then 0 else step(vals[0]) + Total(step, vals[1..])
  }

  lemma {:induction false} TotalAppend(step: Val -> int, xs: seq<Val>, ys: seq<Val>)
    ensures Total(step, xs + ys) == Total(step, xs) + Total(step, ys)
    decreases |xs|
  {
    if |xs| == 0 {
      assert xs + ys == ys;
    } else {
      assert (xs + ys)[1..] == xs[1..] + ys;
      TotalAppend(step, xs[1..], ys);
    }
  }

  /** Filling an accumulator adds the total of the values to its state. */
  lemma {:induction false} AccFills(id: nat, step: Val -> int, st: Store, a: int, vals: seq<Val>)
    requires StateOf(st, id) == VInt(a)
    ensures FillEach(Acc(id, step), st, "fill", vals) == Success(st[id := VInt(a + Total(step, vals))])
    decreases |vals|
  {
    if |vals| == 0 {
      assert st[id := VInt(a)] == st;
    } else {
      var st1 := st[id := VInt(a + step(vals[0]))];
      AccFills(id, step, st1, a + step(vals[0]), vals[1..]);
      assert st1[id := VInt(a + step(vals[0]) + Total(step, vals[1..]))]
          == st[id := VInt(a + Total(step, vals))];
    }
  }

  /** An accumulator never asks to stop filling. */
  lemma {:induction false} AccNeverStops(id: nat, step: Val -> int, st: Store, a: int, vals: seq<Val>)
    requires StateOf(st, id) == VInt(a)
    ensures FillUntilStop(Acc(id, step), st, vals) == Success((st[id := VInt(a + Total(step, vals))], false))
    decreases |vals|
  {
    if |vals| == 0 {
      assert st[id := VInt(a)] == st;
    } else {
      var st1 := st[id := VInt(a + step(vals[0]))];
      AccNeverStops(id, step, st1, a + step(vals[0]), vals[1..]);
      assert st1[id := VInt(a + step(vals[0]) + Total(step, vals[1..]))]
          == st[id := VInt(a + Total(step, vals))];
    }
  }

  /** `Run` of a FillCompute element fills it with the whole flow and then
      yields what it computes: for an accumulator, the one total. */
  lemma RunAccumulates(rid: nat, id: nat, step: Val -> int, st: Store, a: int, flow: seq<Val>)
    requires StateOf(st, id) == VInt(a)
    ensures RunFlow(Run(rid, Acc(id, step), FillComputeAll), st, flow)
            == Success((st[id := VInt(a + Total(step, flow))], [VInt(a + Total(step, flow))]))
  {
    AccFills(id, step, st, a, flow);
    var st1 := st[id := VInt(a + Total(step, flow))];
    var el := Acc(id, step);
    assert Invoke(el, st1, "compute", []) == Success((st1, VList([VInt(a + Total(step, flow))])));
    assert RunByMode(el, FillComputeAll, st, flow) == Success((st1, [VInt(a + Total(step, flow))]));
  }

  // ------------------------------------------------------------------
  // FillRequest.run

  function ListOf(v: Val): seq<Val>
  {
    if v.VList? then v.items else []
  }

  /** An element that keeps the values filled since the last request;
      `request()` yields them as one list and starts a new one. */
  function Probe(id: nat): Element
  {
    User(id, map[
      "fill" := (s: Val, args: seq<Val>) =>
        if |args| == 1 then Success((VList(ListOf(s) + [args[0]]), VNone)) else Failure(PyTypeError),
      "request" := (s: Val, args: seq<Val>) => Success((VList([]), VList([VList(ListOf(s))])))])
  }

  /** The flow cut into consecutive slices of *k* values; the last one may
      be shorter. */
  function Batches(flow: seq<Val>, k: nat): seq<Val>
    requires k >= 1
    decreases |flow|
  {
    if |flow| == 0 then []
    else
      var n := if k < |flow| then k else |flow|;
      [VList(flow[..n])] + Batches(flow[n..], k)
  }

  /** The items of lists, concatenated. */
  function Joined(bs: seq<Val>): seq<Val>
  {
    if |bs| == 0 then [] else ListOf(bs[0]) + Joined(bs[1..])
  }

  /** The slices give back the flow, in order. */
  lemma {:induction false} BatchesJoin(flow: seq<Val>, k: nat)
    requires k >= 1
    ensures Joined(Batches(flow, k)) == flow
    decreases |flow|
  {
    if |flow| > 0 {
      var n := if k < |flow| then k else |flow|;
      BatchesJoin(flow[n..], k);
      assert Batches(flow, k)[1..] == Batches(flow[n..], k);
      assert flow[..n] + flow[n..] == flow;
    }
  }

  /** Each slice holds between one and *k* values, and all but the last
      exactly *k*. */
  lemma {:induction false} BatchesSized(flow: seq<Val>, k: nat)
    requires k >= 1
    ensures forall i :: 0 <= i < |Batches(flow, k)| ==>
              Batches(flow, k)[i].VList? && 1 <= |Batches(flow, k)[i].items| <= k
    ensures forall i :: 0 <= i < |Batches(flow, k)| - 1 ==> |Batches(flow, k)[i].items| == k
    decreases |flow|
  {
    if |flow| > 0 {
      var n := if k < |flow| then k else |flow|;
      BatchesSized(flow[n..], k);
      var bs := Batches(flow, k);
      assert bs[1..] == Batches(flow[n..], k);
      if n == |flow| {
        assert |Batches(flow[n..], k)| == 0;
      }
    }
  }

  lemma {:induction false} ProbeFills(id: nat, st: Store, xs: seq<Val>, vals: seq<Val>)
    requires StateOf(st, id) == VList(xs)
    ensures FillEach(Probe(id), st, "fill", vals) == Success(st[id := VList(xs + vals)])
    decreases |vals|
  {
    if |vals| == 0 {
      assert xs + vals == xs;
      assert st[id := VList(xs)] == st;
    } else {
      var st1 := st[id := VList(xs + [vals[0]])];
      ProbeFills(id, st1, xs + [vals[0]], vals[1..]);
      assert (xs + [vals[0]]) + vals[1..] == xs + vals;
      assert st1[id := VList(xs + vals)] == st[id := VList(xs + vals)];
    }
  }

  /** `FillRequest(el, bufsize=k).run(flow)` requests after every slice of
      *k* values: the probe sees exactly the slices; an empty flow is
      requested once, and an empty remainder not at all. */
  lemma {:induction false} FillRequestBatches(id: nat, k: nat, st: Store, flow: seq<Val>, filledOnce: bool)
    requires k >= 1 && StateOf(st, id) == VList([])
    ensures FillRequestRun(Probe(id), "fill", Some("request"), k, st, flow, filledOnce)
            == Success((st, if |flow| == 0 && !filledOnce then [VList([])] else Batches(flow, k)))
    decreases |flow|
  {
    var el := Probe(id);
    if |flow| == 0 {
      assert st[id := VList([])] == st;
      assert RequestOf(el, Some("request"), st) == Success((st, VList([VList([])])));
    } else {
      var n := if k < |flow| then k else |flow|;
      ProbeFills(id, st, [], flow[..n]);
      assert [] + flow[..n] == flow[..n];
      var st1 := st[id := VList(flow[..n])];
      assert st1[id := VList([])] == st;
      assert RequestOf(el, Some("request"), st1) == Success((st, VList([VList(flow[..n])])));
      assert FillAndRequest(el, "fill", Some("request"), st, flow[..n]) == Success((st, [VList(flow[..n])]));
      FillRequestBatches(id, k, st, flow[n..], true);
    }
  }

  /** A flow as `islice` sees it: an iterator is consumed by each slice; a
      list is iterated afresh each time. */
  datatype Flow = Iterator(vals: seq<Val>) | ListFlow(vals: seq<Val>)

  /** `itertools.islice(flow, n)`: the slice and what the flow is afterwards. */
  function Islice(flow: Flow, n: nat): (r: (seq<Val>, Flow))
    ensures r.0 == flow.vals[..if n < |flow.vals| then n else |flow.vals|]
    ensures flow.Iterator? ==> r.1 == Iterator(flow.vals[|r.0|..])
    ensures flow.ListFlow? ==> r.1 == flow
  {
    var m := if n < |flow.vals| then n else |flow.vals|;
    match flow
    case Iterator(vals) => (vals[..m], Iterator(vals[m..]))
    case ListFlow(vals) => (vals[..m], flow)
  }

  /** `FillRequest.run(flow)` as written: each pass slices the flow with
      `islice(flow, bufsize)` without taking `iter(flow)` first. The loop
      has no bound of its own, so at most *passes* passes are followed; the
      flag tells whether the loop ended. */
  function FillRequestAsWritten(el: Element, f: string, rq: Option<string>, bufsize: nat, st: Store,
                                flow: Flow, filledOnce: bool, passes: nat): Result<(Store, seq<Val>, bool)>
    requires bufsize >= 1
    decreases passes
  {
    if passes == 0 then Success((st, [], false))
    else
      var (slice, rest) := Islice(flow, bufsize);
      if |slice| == 0 then
        if filledOnce then Success((st, [], true))
        else
          var (st1, outs) :- RequestYield(el, rq, st);
          Success((st1, outs, true))
      else
        var (st2, outs) :- FillAndRequest(el, f, rq, st, slice);
        var (st3, more, ended) :- FillRequestAsWritten(el, f, rq, bufsize, st2, rest, true, passes - 1);
        Success((st3, outs + more, ended))
  }

  /** A run that ended. */
  function Ended(r: Result<(Store, seq<Val>)>): Result<(Store, seq<Val>, bool)>
  {
    if r.Failure? then Failure(r.error) else Success((r.value.0, r.value.1, true))
  }

  /** On an iterator the loop as written ends after one pass per slice and
      one more, and then yields what `FillRequestRun` yields. */
  lemma {:induction false} IteratorFlowAgrees(el: Element, f: string, rq: Option<string>, bufsize: nat,
                                              st: Store, vals: seq<Val>, filledOnce: bool, passes: nat)
    requires bufsize >= 1 && passes > |vals|
    ensures FillRequestAsWritten(el, f, rq, bufsize, st, Iterator(vals), filledOnce, passes)
            == Ended(FillRequestRun(el, f, rq, bufsize, st, vals, filledOnce))
    decreases |vals|
  {
    if |vals| == 0 {
      IteratorEnds(el, f, rq, bufsize, st, filledOnce, passes);
    } else {
      var k := if bufsize < |vals| then bufsize else |vals|;
      var first := FillAndRequest(el, f, rq, st, vals[..k]);
      if first.Success? {
        IteratorFlowAgrees(el, f, rq, bufsize, first.value.0, vals[k..], true, passes - 1);
      }
      IteratorPass(el, f, rq, bufsize, st, vals, filledOnce, passes);
    }
  }

  lemma IteratorEnds(el: Element, f: string, rq: Option<string>, bufsize: nat,
                     st: Store, filledOnce: bool, passes: nat)
    requires bufsize >= 1 && passes > 0
    ensures FillRequestAsWritten(el, f, rq, bufsize, st, Iterator([]), filledOnce, passes)
            == Ended(FillRequestRun(el, f, rq, bufsize, st, [], filledOnce))
  {
    assert Islice(Iterator([]), bufsize).0 == [];
  }

  /** One pass over a non-empty iterator: if the rest agrees, the whole
      agrees. */
  lemma IteratorPass(el: Element, f: string, rq: Option<string>, bufsize: nat,
                     st: Store, vals: seq<Val>, filledOnce: bool, passes: nat)
    requires bufsize >= 1 && passes > |vals| > 0
    requires var k := if bufsize < |vals| then bufsize else |vals|;
             var first := FillAndRequest(el, f, rq, st, vals[..k]);
             first.Success? ==>
               FillRequestAsWritten(el, f, rq, bufsize, first.value.0, Iterator(vals[k..]), true, passes - 1)
               == Ended(FillRequestRun(el, f, rq, bufsize, first.value.0, vals[k..], true))
    ensures FillRequestAsWritten(el, f, rq, bufsize, st, Iterator(vals), filledOnce, passes)
            == Ended(FillRequestRun(el, f, rq, bufsize, st, vals, filledOnce))
  {
    var k := if bufsize < |vals| then bufsize else |vals|;
    assert Islice(Iterator(vals), bufsize) == (vals[..k], Iterator(vals[k..]));
  }

  /** On a non-empty list the loop as written never ends: every pass takes
      the same first slice again, however many passes are followed. */
  lemma {:induction false} ListFlowNeverEnds(el: Element, f: string, rq: Option<string>, bufsize: nat,
                                             st: Store, vals: seq<Val>, filledOnce: bool, passes: nat)
    requires bufsize >= 1 && |vals| > 0
    ensures var r := FillRequestAsWritten(el, f, rq, bufsize, st, ListFlow(vals), filledOnce, passes);
            r.Success? ==> !r.value.2
    decreases passes
  {
    if passes > 0 {
      var k := if bufsize < |vals| then bufsize else |vals|;
      var first := FillAndRequest(el, f, rq, st, vals[..k]);
      if first.Success? {
        ListFlowNeverEnds(el, f, rq, bufsize, first.value.0, vals, true, passes - 1);
      }
    }
  }

  /** `FillRequest(Sum(), bufsize=1).run([1])` as written: every pass
      fills 1 again and yields the growing sum. */
  lemma SumOverListRepeats(id: nat, st: Store)
    requires StateOf(st, id) == VInt(0)
    ensures var r := FillRequestAsWritten(Acc(id, IntOf), "fill", Some("compute"), 1, st,
                                          ListFlow([VInt(1)]), false, 3);
            r.Success? && r.value.1 == [VInt(1), VInt(2), VInt(3)] && !r.value.2
  {
    var fl := ListFlow([VInt(1)]);
    assert [VInt(1)][..1] == [VInt(1)];
    assert Islice(fl, 1) == ([VInt(1)], fl);
    var st1: Store := st[id := VInt(1)];
    var st2: Store := st[id := VInt(2)];
    var st3: Store := st[id := VInt(3)];
    SumPass(id, st, 0);
    assert st[id := VInt(1)][id := VInt(2)] == st2;
    SumPass(id, st1, 1);
    assert st1[id := VInt(2)][id := VInt(3)] == st3;
    SumPass(id, st2, 2);
    assert FillRequestAsWritten(Acc(id, IntOf), "fill", Some("compute"), 1, st3, fl, true, 0) == Success((st3, [], false));
  }

  lemma SumPass(id: nat, st: Store, a: int)
    requires StateOf(st, id) == VInt(a)
    ensures FillAndRequest(Acc(id, IntOf), "fill", Some("compute"), st, [VInt(1)])
            == Success((st[id := VInt(a + 1)], [VInt(a + 1)]))
  {
    AccFills(id, IntOf, st, a, [VInt(1)]);
    assert [VInt(1)][1..] == [];
    assert Total(IntOf, [VInt(1)]) == 1;
    var st1: Store := st[id := VInt(a + 1)];
    assert st1[id := VInt(a + 1)] == st1;
    assert RequestOf(Acc(id, IntOf), Some("compute"), st1) == Success((st1, VList([VInt(a + 1)])));
  }

  // ------------------------------------------------------------------
  // FillSeq.fill

  function ThenEach(r: Result<Store>, el: Element, name: string, vals: seq<Val>): Result<Store>
  {
    if r.Failure? then r else FillEach(el, r.value, name, vals)
  }

  function ThenChain(r: Result<Store>, chain: seq<Element>, vals: seq<Val>): Result<Store>
  {
    if r.Failure? then r else FillChain(chain, r.value, vals)
  }

  /** Filling values one after another: two runs of fills are one. */
  lemma {:induction false} FillEachAppend(el: Element, st: Store, name: string, xs: seq<Val>, ys: seq<Val>)
    ensures FillEach(el, st, name, xs + ys) == ThenEach(FillEach(el, st, name, xs), el, name, ys)
    decreases |xs|
  {
    if |xs| == 0 {
      assert xs + ys == ys;
    } else {
      assert (xs + ys)[0] == xs[0] && (xs + ys)[1..] == xs[1..] + ys;
      var first := Invoke(el, st, name, [xs[0]]);
      if first.Success? {
        FillEachAppend(el, first.value.0, name, xs[1..], ys);
      }
    }
  }

  /** A fill chain is filled value by value: filling *xs* and then *ys*
      is filling `xs + ys`. */
  lemma {:induction false} FillChainAppend(chain: seq<Element>, st: Store, xs: seq<Val>, ys: seq<Val>)
    ensures FillChain(chain, st, xs + ys) == ThenChain(FillChain(chain, st, xs), chain, ys)
    decreases |xs|
  {
    if |chain| == 1 {
      FillEachAppend(chain[0], st, "fill", xs, ys);
    } else if |chain| >= 2 {
      if |xs| == 0 {
        assert xs + ys == ys;
      } else {
        assert (xs + ys)[0] == xs[0] && (xs + ys)[1..] == xs[1..] + ys;
        var first := Invoke(chain[0], st, "fill_into", [xs[0]]);
        if first.Success? && Iterate(first.value.1).Success? {
          var st2 := FillChain(chain[1..], first.value.0, Iterate(first.value.1).value);
          if st2.Success? {
            FillChainAppend(chain, st2.value, xs[1..], ys);
          }
        }
      }
    }
  }

  /** `FillInto(f)` at the head of a chain fills the rest of the chain with
      `f(value)` for every value, in order. */
  lemma {:induction false} FillIntoCallMaps(iid: nat, id: nat, g: Val -> Val, rest: seq<Element>,
                                            st: Store, vals: seq<Val>)
    requires |rest| >= 1
    ensures FillChain([FillInto(iid, FnEl(id, g), IntoCall)] + rest, st, vals)
            == FillChain(rest, st, MapVals(g, vals))
    decreases |vals|
  {
    var head := FillInto(iid, FnEl(id, g), IntoCall);
    var chain := [head] + rest;
    assert chain[0] == head && chain[1..] == rest;
    if |vals| > 0 {
      assert Invoke(head, st, "fill_into", [vals[0]]) == Success((st, VList([g(vals[0])])));
      var mid := FillChain(rest, st, [g(vals[0])]);
      if mid.Success? {
        FillIntoCallMaps(iid, id, g, rest, mid.value, vals[1..]);
      }
      FillChainAppend(rest, st, [g(vals[0])], MapVals(g, vals[1..]));
      assert MapVals(g, vals) == [g(vals[0])] + MapVals(g, vals[1..]);
    }
  }

  // ------------------------------------------------------------------
  // Split.run with mapping branches

  /** A `Sequence` branch that maps every buffer by *g* and changes no
      state. */
  ghost predicate MapsBy(b: Branch, g: Val -> Val, st: Store)
  {
    b.kind == SequenceType && forall buf :: RunFlow(b.el, st, buf) == Success((st, MapVals(g, buf)))
  }

  ghost predicate AllMap(bs: seq<Branch>, gs: seq<Val -> Val>, st: Store)
  {
    |bs| == |gs| && forall i :: 0 <= i < |bs| ==> MapsBy(bs[i], gs[i], st)
  }

  /** The outputs of one buffer: each branch's map of it, branch after
      branch. */
  function EachMapped(gs: seq<Val -> Val>, buf: seq<Val>): seq<Val>
  {
    if |gs| == 0 then [] else MapVals(gs[0], buf) + EachMapped(gs[1..], buf)
  }

  /** The outputs of the buffers of *k* values, buffer after buffer. */
  function Buffered(gs: seq<Val -> Val>, flow: seq<Val>, k: nat): seq<Val>
    requires k >= 1
    decreases |flow|
  {
    if |flow| == 0 then []
    else
      var n := if k < |flow| then k else |flow|;
      EachMapped(gs, flow[..n]) + Buffered(gs, flow[n..], k)
  }

  lemma MapSeqBranch(sid: nat, rid: nat, id: nat, g: Val -> Val, st: Store)
    ensures MapsBy(Branch(MapSeq(sid, rid, id, g), SequenceType), g, st)
  {
    forall buf: seq<Val> ensures RunFlow(MapSeq(sid, rid, id, g), st, buf) == Success((st, MapVals(g, buf))) {
      MapSeqMaps(sid, rid, id, g, st, buf);
    }
  }

  /** One buffer through mapping branches: all stay active, and each
      yields its map of the buffer, in the order of the branches. */
  lemma {:induction false} SplitBranchesMap(bound: nat, bs: seq<Branch>, gs: seq<Val -> Val>, st: Store, buf: seq<Val>)
    requires Bounded(bs, bound) && AllMap(bs, gs, st)
    ensures SplitBranches(bound, bs, st, buf) == Success((bs, st, EachMapped(gs, buf)))
    decreases |bs|
  {
    if |bs| > 0 {
      assert MapsBy(bs[0], gs[0], st);
      assert RunFlow(bs[0].el, st, buf) == Success((st, MapVals(gs[0], buf)));
      assert BranchStep(bound, bs[0], st, buf) == Success((false, st, MapVals(gs[0], buf)));
      assert forall i :: 0 <= i < |bs[1..]| ==> bs[1..][i] == bs[i + 1] && gs[1..][i] == gs[i + 1];
      SplitBranchesMap(bound, bs[1..], gs[1..], st, buf);
      assert [bs[0]] + bs[1..] == bs;
    }
  }

  /** After the flow, mapping branches yield nothing more (on an empty flow,
      each maps the empty buffer). */
  lemma {:induction false} SplitFinishMap(bound: nat, bs: seq<Branch>, gs: seq<Val -> Val>, st: Store, flowWasEmpty: bool)
    requires Bounded(bs, bound) && AllMap(bs, gs, st)
    ensures SplitFinish(bound, bs, st, flowWasEmpty) == Success((st, []))
    decreases |bs|
  {
    if |bs| > 0 {
      assert MapsBy(bs[0], gs[0], st);
      assert RunFlow(bs[0].el, st, []) == Success((st, MapVals(gs[0], [])));
      assert FinishStep(bound, bs[0], st, flowWasEmpty) == Success((st, []));
      assert forall i :: 0 <= i < |bs[1..]| ==> bs[1..][i] == bs[i + 1] && gs[1..][i] == gs[i + 1];
      SplitFinishMap(bound, bs[1..], gs[1..], st, flowWasEmpty);
      var first: seq<Val> := [];
      assert first + [] == [];
    }
  }

  /** `Split.run` over mapping branches with buffers of *k* values yields,
      for each buffer in turn, every branch's map of that buffer. */
  lemma {:induction false} SplitMapsBuffers(bound: nat, bs: seq<Branch>, gs: seq<Val -> Val>, k: nat, st: Store,
                                            flow: seq<Val>, flowWasEmpty: bool)
    requires k >= 1 && Bounded(bs, bound) && AllMap(bs, gs, st)
    ensures SplitBuffers(bound, bs, Some(k), st, flow, flowWasEmpty) == Success((st, Buffered(gs, flow, k)))
    decreases |flow|
  {
    if |flow| == 0 {
      SplitFinishMap(bound, bs, gs, st, flowWasEmpty);
    } else {
      var n := if k < |flow| then k else |flow|;
      SplitBranchesMap(bound, bs, gs, st, flow[..n]);
      SplitMapsBuffers(bound, bs, gs, k, st, flow[n..], false);
    }
  }

  /** Without a buffer size the whole flow is one buffer: each branch maps
      all of it, branch after branch. */
  lemma SplitMapsWhole(bound: nat, bs: seq<Branch>, gs: seq<Val -> Val>, st: Store, flow: seq<Val>, flowWasEmpty: bool)
    requires Bounded(bs, bound) && AllMap(bs, gs, st)
    ensures SplitBuffers(bound, bs, None, st, flow, flowWasEmpty) == Success((st, EachMapped(gs, flow)))
  {
    if |flow| == 0 {
      SplitFinishMap(bound, bs, gs, st, flowWasEmpty);
      EachMappedEmpty(gs);
    } else {
      SplitBranchesMap(bound, bs, gs, st, flow);
      assert flow[..|flow|] == flow;
      SplitFinishMap(bound, bs, gs, st, false);
      assert EachMapped(gs, flow) + [] == EachMapped(gs, flow);
    }
  }

  lemma {:induction false} EachMappedEmpty(gs: seq<Val -> Val>)
    ensures EachMapped(gs, []) == []
    decreases |gs|
  {
    if |gs| > 0 {
      EachMappedEmpty(gs[1..]);
    }
  }

  /** Two values of every input, the first branch's then the second's. */
  function Interleave(f: Val -> Val, g: Val -> Val, flow: seq<Val>): (r: seq<Val>)
    ensures |r| == 2 * |flow|
  {
    if |flow| == 0 then [] else [f(flow[0]), g(flow[0])] + Interleave(f, g, flow[1..])
  }

  /** With buffers of one value the outputs of two branches interleave. */
  lemma {:induction false} BufferedByOne(f: Val -> Val, g: Val -> Val, flow: seq<Val>)
    ensures Buffered([f, g], flow, 1) == Interleave(f, g, flow)
    decreases |flow|
  {
    if |flow| > 0 {
      BufferedByOne(f, g, flow[1..]);
      assert flow[..1] == [flow[0]];
      EachMappedTwo(f, g, flow[..1]);
    }
  }

  /** Output `2i` is the first branch's for input `i`, output `2i + 1` the
      second's. */
  lemma {:induction false} InterleaveAt(f: Val -> Val, g: Val -> Val, flow: seq<Val>, i: int)
    requires 0 <= i < |flow|
    ensures Interleave(f, g, flow)[2 * i] == f(flow[i])
    ensures Interleave(f, g, flow)[2 * i + 1] == g(flow[i])
    decreases i
  {
    if i > 0 {
      InterleaveAt(f, g, flow[1..], i - 1);
    }
  }

  lemma EachMappedTwo(f: Val -> Val, g: Val -> Val, buf: seq<Val>)
    ensures EachMapped([f, g], buf) == MapVals(f, buf) + MapVals(g, buf)
  {
    assert [f, g][1..] == [g] && [g][1..] == [];
    assert EachMapped([g], buf) == MapVals(g, buf) + [];
  }

  /** The branches of `Split([Sequence(f), Sequence(g)])` map by *f* and *g*. */
  lemma TwoMapBranches(s1: nat, r1: nat, i1: nat, f: Val -> Val, s2: nat, r2: nat, i2: nat, g: Val -> Val, st: Store)
    ensures var seqs := [MapSeq(s1, r1, i1, f), MapSeq(s2, r2, i2, g)];
            var bs := Branches(seqs, [SequenceType, SequenceType]);
            Bounded(bs, SizeAll(seqs)) && AllMap(bs, [f, g], st)
  {
    var seqs := [MapSeq(s1, r1, i1, f), MapSeq(s2, r2, i2, g)];
    var types := [SequenceType, SequenceType];
    BranchesBounded(seqs, types);
    MapSeqBranch(s1, r1, i1, f, st);
    MapSeqBranch(s2, r2, i2, g, st);
    assert Branches(seqs, types) == [Branch(seqs[0], SequenceType), Branch(seqs[1], SequenceType)];
  }

  /** What a run returns, as the list it yields. */
  function AsList(r: Result<(Store, seq<Val>)>): Result<(Store, Val)>
  {
    if r.Failure? then Failure(r.error) else Success((r.value.0, VList(r.value.1)))
  }

  /** `Split.run` of a split with branches is the buffered run of its
      branches. */
  lemma SplitRun(id: nat, seqs: seq<Element>, types: seq<SeqType>, b: Val, copyBuf: bool, st: Store,
                 flow: seq<Val>, stop: Option<nat>)
    requires |seqs| > 0 && IsliceStop(b) == Success(stop)
    ensures Bounded(Branches(seqs, types), SizeAll(seqs))
    ensures Invoke(Split(id, seqs, types, b, copyBuf), st, "run", flow)
            == AsList(SplitBuffers(SizeAll(seqs), Branches(seqs, types), stop, st, flow, true))
  {
    BranchesBounded(seqs, types);
  }

  /** `Split([Sequence(f), Sequence(g)], bufsize=1).run(flow)` yields
      `f(x0), g(x0), f(x1), g(x1), ...`. */
  lemma SplitInterleaves(id: nat, s1: nat, r1: nat, i1: nat, f: Val -> Val, s2: nat, r2: nat, i2: nat, g: Val -> Val,
                         copyBuf: bool, st: Store, flow: seq<Val>)
    ensures var seqs := [MapSeq(s1, r1, i1, f), MapSeq(s2, r2, i2, g)];
            Invoke(Split(id, seqs, [SequenceType, SequenceType], VInt(1), copyBuf), st, "run", flow)
              == Success((st, VList(Interleave(f, g, flow))))
  {
    var seqs := [MapSeq(s1, r1, i1, f), MapSeq(s2, r2, i2, g)];
    TwoMapBranches(s1, r1, i1, f, s2, r2, i2, g, st);
    SplitRun(id, seqs, [SequenceType, SequenceType], VInt(1), copyBuf, st, flow, Some(1));
    SplitMapsBuffers(SizeAll(seqs), Branches(seqs, [SequenceType, SequenceType]), [f, g], 1, st, flow, true);
    BufferedByOne(f, g, flow);
  }

  /** With `bufsize=None` the same split yields all of `f`'s outputs, then
      all of `g`'s. */
  lemma SplitUnbuffered(id: nat, s1: nat, r1: nat, i1: nat, f: Val -> Val, s2: nat, r2: nat, i2: nat, g: Val -> Val,
                        copyBuf: bool, st: Store, flow: seq<Val>)
    ensures var seqs := [MapSeq(s1, r1, i1, f), MapSeq(s2, r2, i2, g)];
            Invoke(Split(id, seqs, [SequenceType, SequenceType], VNone, copyBuf), st, "run", flow)
              == Success((st, VList(MapVals(f, flow) + MapVals(g, flow))))
  {
    var seqs := [MapSeq(s1, r1, i1, f), MapSeq(s2, r2, i2, g)];
    TwoMapBranches(s1, r1, i1, f, s2, r2, i2, g, st);
    SplitRun(id, seqs, [SequenceType, SequenceType], VNone, copyBuf, st, flow, None);
    SplitMapsWhole(SizeAll(seqs), Branches(seqs, [SequenceType, SequenceType]), [f, g], st, flow, true);
    EachMappedTwo(f, g, flow);
  }

  // ------------------------------------------------------------------
  // Split.run with FillCompute branches

  function One(v: Val): int
  {
    1
  }

  /** Two accumulators with their states *x* and *y*. */
  function Pair(st0: Store, a: nat, b: nat, x: int, y: int): Store
  {
    st0[a := VInt(x)][b := VInt(y)]
  }

  function PairBranches(a: nat, sa: Val -> int, b: nat, sb: Val -> int): seq<Branch>
  {
    [Branch(Acc(a, sa), FillComputeType), Branch(Acc(b, sb), FillComputeType)]
  }

  /** An accumulator branch takes every value of a buffer and stays
      active. */
  lemma AccBranchStep(bound: nat, id: nat, step: Val -> int, st: Store, x: int, buf: seq<Val>)
    requires bound >= 1 && StateOf(st, id) == VInt(x)
    ensures BranchStep(bound, Branch(Acc(id, step), FillComputeType), st, buf)
            == Success((false, st[id := VInt(x + Total(step, buf))], []))
  {
    AccNeverStops(id, step, st, x, buf);
  }

  /** After the flow an accumulator branch yields its total. */
  lemma AccFinishStep(bound: nat, id: nat, step: Val -> int, st: Store, x: int, flowWasEmpty: bool)
    requires bound >= 1 && StateOf(st, id) == VInt(x)
    ensures FinishStep(bound, Branch(Acc(id, step), FillComputeType), st, flowWasEmpty) == Success((st, [VInt(x)]))
  {
  }

  /** A branch that stays active, before the rest of the pass. */
  lemma KeptFirst(bound: nat, active: seq<Branch>, st: Store, buf: seq<Val>, st1: Store, o1: seq<Val>,
                  rest: seq<Branch>, st2: Store, o2: seq<Val>)
    requires |active| > 0 && Bounded(active, bound)
    requires BranchStep(bound, active[0], st, buf) == Success((false, st1, o1))
    requires SplitBranches(bound, active[1..], st1, buf) == Success((rest, st2, o2))
    ensures SplitBranches(bound, active, st, buf) == Success(([active[0]] + rest, st2, o1 + o2))
  {
  }

  /** A branch finishing before the others. */
  lemma FinishedFirst(bound: nat, active: seq<Branch>, st: Store, flowWasEmpty: bool, st1: Store, o1: seq<Val>,
                      st2: Store, o2: seq<Val>)
    requires |active| > 0 && Bounded(active, bound)
    requires FinishStep(bound, active[0], st, flowWasEmpty) == Success((st1, o1))
    requires SplitFinish(bound, active[1..], st1, flowWasEmpty) == Success((st2, o2))
    ensures SplitFinish(bound, active, st, flowWasEmpty) == Success((st2, o1 + o2))
  {
  }

  lemma PairUpdates(st0: Store, a: nat, b: nat, x: int, y: int, u: int, v: int)
    requires a != b
    ensures StateOf(Pair(st0, a, b, x, y), a) == VInt(x) && StateOf(Pair(st0, a, b, x, y), b) == VInt(y)
    ensures Pair(st0, a, b, x, y)[a := VInt(u)] == Pair(st0, a, b, u, y)
    ensures Pair(st0, a, b, x, y)[b := VInt(v)] == Pair(st0, a, b, x, v)
  {
  }

  /** A buffer through a single accumulator branch. */
  lemma AccPass(bound: nat, id: nat, step: Val -> int, st: Store, x: int, buf: seq<Val>)
    requires bound >= 1 && StateOf(st, id) == VInt(x)
    ensures SplitBranches(bound, [Branch(Acc(id, step), FillComputeType)], st, buf)
            == Success(([Branch(Acc(id, step), FillComputeType)], st[id := VInt(x + Total(step, buf))], []))
  {
    var bs := [Branch(Acc(id, step), FillComputeType)];
    AccBranchStep(bound, id, step, st, x, buf);
    var none: seq<Val> := [];
    assert bs[1..] == [];
    KeptFirst(bound, bs, st, buf, st[id := VInt(x + Total(step, buf))], none, [], st[id := VInt(x + Total(step, buf))], none);
    assert [bs[0]] + [] == bs && none + none == none;
  }

  /** A buffer through two FillCompute branches: both are filled with it,
      stay active and yield nothing yet. */
  lemma PairPass(bound: nat, a: nat, sa: Val -> int, b: nat, sb: Val -> int, st0: Store, x: int, y: int, buf: seq<Val>)
    requires a != b && bound >= 1 && Bounded(PairBranches(a, sa, b, sb), bound)
    ensures SplitBranches(bound, PairBranches(a, sa, b, sb), Pair(st0, a, b, x, y), buf)
            == Success((PairBranches(a, sa, b, sb), Pair(st0, a, b, x + Total(sa, buf), y + Total(sb, buf)), []))
  {
    var bs := PairBranches(a, sa, b, sb);
    var u := x + Total(sa, buf);
    var v := y + Total(sb, buf);
    PairUpdates(st0, a, b, x, y, u, v);
    PairUpdates(st0, a, b, u, y, u, v);
    AccBranchStep(bound, a, sa, Pair(st0, a, b, x, y), x, buf);
    AccPass(bound, b, sb, Pair(st0, a, b, u, y), y, buf);
    assert bs[1..] == [Branch(Acc(b, sb), FillComputeType)];
    var none: seq<Val> := [];
    KeptFirst(bound, bs, Pair(st0, a, b, x, y), buf, Pair(st0, a, b, u, y), none, bs[1..], Pair(st0, a, b, u, v), none);
    assert [bs[0]] + bs[1..] == bs && none + none == none;
  }

  /** After the flow both branches compute: their totals, in order. */
  lemma PairFinish(bound: nat, a: nat, sa: Val -> int, b: nat, sb: Val -> int, st0: Store, x: int, y: int, flowWasEmpty: bool)
    requires a != b && bound >= 1 && Bounded(PairBranches(a, sa, b, sb), bound)
    ensures SplitFinish(bound, PairBranches(a, sa, b, sb), Pair(st0, a, b, x, y), flowWasEmpty)
            == Success((Pair(st0, a, b, x, y), [VInt(x), VInt(y)]))
  {
    var bs := PairBranches(a, sa, b, sb);
    var st := Pair(st0, a, b, x, y);
    AccFinishStep(bound, a, sa, st, x, flowWasEmpty);
    AccFinishStep(bound, b, sb, st, y, flowWasEmpty);
    var tail := bs[1..];
    assert tail == [bs[1]] && tail[1..] == [];
    FinishedFirst(bound, tail, st, flowWasEmpty, st, [VInt(y)], st, []);
    FinishedFirst(bound, bs, st, flowWasEmpty, st, [VInt(x)], st, [VInt(y)] + []);
    assert [VInt(x)] + ([VInt(y)] + []) == [VInt(x), VInt(y)];
  }

  /** `Split([Sum(), Count()]).run(flow)` for any buffer size: the branches
      are filled with the whole flow, buffer by buffer, and yield their
      results only after it. */
  lemma {:induction false} PairSplit(bound: nat, a: nat, sa: Val -> int, b: nat, sb: Val -> int, bufsize: Option<nat>,
                                     st0: Store, x: int, y: int, flow: seq<Val>, flowWasEmpty: bool)
    requires a != b && bound >= 1 && bufsize != Some(0) && Bounded(PairBranches(a, sa, b, sb), bound)
    ensures SplitBuffers(bound, PairBranches(a, sa, b, sb), bufsize, Pair(st0, a, b, x, y), flow, flowWasEmpty)
            == Success((Pair(st0, a, b, x + Total(sa, flow), y + Total(sb, flow)),
                        [VInt(x + Total(sa, flow)), VInt(y + Total(sb, flow))]))
    decreases |flow|
  {
    if |flow| == 0 {
      PairFinish(bound, a, sa, b, sb, st0, x, y, flowWasEmpty);
    } else {
      var k := if bufsize.None? || bufsize.value >= |flow| then |flow| else bufsize.value;
      var u := x + Total(sa, flow[..k]);
      var v := y + Total(sb, flow[..k]);
      PairPass(bound, a, sa, b, sb, st0, x, y, flow[..k]);
      PairSplit(bound, a, sa, b, sb, bufsize, st0, u, v, flow[k..], false);
      TotalSplit(sa, flow, k, x);
      TotalSplit(sb, flow, k, y);
      BuffersStep(bound, PairBranches(a, sa, b, sb), bufsize, Pair(st0, a, b, x, y), flow, flowWasEmpty, k,
                  Pair(st0, a, b, u, v), Pair(st0, a, b, x + Total(sa, flow), y + Total(sb, flow)),
                  [VInt(x + Total(sa, flow)), VInt(y + Total(sb, flow))]);
    }
  }

  /** The running total after the first *k* values, plus the total of the
      rest, is the total of the whole flow. */
  lemma TotalSplit(step: Val -> int, flow: seq<Val>, k: nat, x: int)
    requires k <= |flow|
    ensures x + Total(step, flow[..k]) + Total(step, flow[k..]) == x + Total(step, flow)
  {
    TotalAppend(step, flow[..k], flow[k..]);
    assert flow[..k] + flow[k..] == flow;
  }

  lemma PairBounded(bound: nat, a: nat, sa: Val -> int, b: nat, sb: Val -> int)
    requires bound >= 1
    ensures Bounded(PairBranches(a, sa, b, sb), bound)
  {
  }

  /** One buffer of `Split.run` that keeps every branch and yields nothing,
      then the rest of the flow. */
  lemma BuffersStep(bound: nat, active: seq<Branch>, bufsize: Option<nat>, st: Store, flow: seq<Val>, flowWasEmpty: bool,
                    k: nat, st1: Store, st2: Store, o2: seq<Val>)
    requires Bounded(active, bound) && |flow| > 0 && bufsize != Some(0)
    requires k == if bufsize.None? || bufsize.value >= |flow| then |flow| else bufsize.value
    requires SplitBranches(bound, active, st, flow[..k]) == Success((active, st1, []))
    requires SplitBuffers(bound, active, bufsize, st1, flow[k..], false) == Success((st2, o2))
    ensures SplitBuffers(bound, active, bufsize, st, flow, flowWasEmpty) == Success((st2, o2))
  {
    var none: seq<Val> := [];
    assert none + o2 == o2;
  }

  /** `Split([Sum(), Count()])` on `0, 1, 2, 3, 4, 0` yields `10, 6`. */
  lemma SumCountExample(id: nat, a: nat, b: nat, copyBuf: bool, st0: Store)
    requires a != b
    ensures var seqs := [Acc(a, IntOf), Acc(b, One)];
            var flow := [VInt(0), VInt(1), VInt(2), VInt(3), VInt(4), VInt(0)];
            Invoke(Split(id, seqs, [FillComputeType, FillComputeType], VInt(1000), copyBuf), Pair(st0, a, b, 0, 0), "run", flow)
              == Success((Pair(st0, a, b, 10, 6), VList([VInt(10), VInt(6)])))
  {
    var seqs := [Acc(a, IntOf), Acc(b, One)];
    var flow := [VInt(0), VInt(1), VInt(2), VInt(3), VInt(4), VInt(0)];
    var types := [FillComputeType, FillComputeType];
    SplitRun(id, seqs, types, VInt(1000), copyBuf, Pair(st0, a, b, 0, 0), flow, Some(1000));
    assert Branches(seqs, types) == PairBranches(a, IntOf, b, One);
    PairBounded(SizeAll(seqs), a, IntOf, b, One);
    PairSplit(SizeAll(seqs), a, IntOf, b, One, Some(1000), st0, 0, 0, flow, true);
    assert flow[1..][1..][1..][1..][1..][1..] == [];
    assert Total(IntOf, flow) == 10;
    assert Total(One, flow) == 6;
  }

  // ------------------------------------------------------------------
  // Sources and fill sequences, built and run

  /** `Sequence(f)` for a callable *f* wraps it in `Run`. */
  lemma MakeMapSeq(id: nat, g: Val -> Val, nextId: nat)
    ensures MakeSequence([FnEl(id, g)], nextId) == Success((MapSeq(nextId, nextId + 1, id, g), nextId + 2))
  {
    var els := [FnEl(id, g)];
    assert SequenceArgs(els) == els;
    assert els[1..] == [];
    var w := Run(nextId + 1, FnEl(id, g), CallEach);
    var n2: nat := nextId + 2;
    var none: seq<Element> := [];
    assert WrapOne(FnEl(id, g), nextId + 1) == Success((w, n2));
    assert WrapRuns(els[1..], n2) == Success((none, n2));
    assert [w] + [] == [w];
    assert WrapRuns(els, nextId + 1) == Success(([Run(nextId + 1, FnEl(id, g), CallEach)], nextId + 2));
  }

  /** `Source(data, f)`: built from a list of data and a callable, calling
      the source yields *f* of every item. As written, the same arguments
      reach `object.__init__` and the source cannot be built at all. */
  lemma SourceOfData(id: nat, g: Val -> Val, items: seq<Val>, nextId: nat, st: Store)
    ensures var args := [Data(VList(items)), FnEl(id, g)];
            var tail := MapSeq(nextId + 1, nextId + 2, id, g);
            MakeSource(args, nextId) == Success((Source(nextId, args, Some(tail)), nextId + 3))
            && Invoke(Source(nextId, args, Some(tail)), st, "__call__", []) == Success((st, VList(MapVals(g, items))))
            && MakeSourceAsWritten(args, nextId) == Failure(PyTypeError)
  {
    var args := [Data(VList(items)), FnEl(id, g)];
    assert args[1..] == [FnEl(id, g)];
    MakeMapSeq(id, g, nextId + 1);
    var tail := MapSeq(nextId + 1, nextId + 2, id, g);
    MapSeqMaps(nextId + 1, nextId + 2, id, g, st, items);
    assert HeadFlow(args[0], st) == Success((st, items));
  }

  function Inc(v: Val): Val
  {
    VInt(IntOf(v) + 1)
  }

  function Dec(v: Val): Val
  {
    VInt(IntOf(v) - 1)
  }

  /** `FillSeq(Add(1), Add(-1), store)` wraps both callables in
      `FillInto`. As written the constructor fails. */
  lemma FillSeqAddSubBuilt(a: nat, b: nat, p: nat, nextId: nat)
    ensures var args := [FnEl(a, Inc), FnEl(b, Dec), Probe(p)];
            var chain := [FillInto(nextId + 1, FnEl(a, Inc), IntoCall), FillInto(nextId + 2, FnEl(b, Dec), IntoCall), Probe(p)];
            MakeFillSeq(args, nextId) == Success((FillSeq(nextId, args, chain), nextId + 3))
            && MakeFillSeqAsWritten(args, nextId) == Failure(PyTypeError)
  {
    var args := [FnEl(a, Inc), FnEl(b, Dec), Probe(p)];
    var fa := FillInto(nextId + 1, FnEl(a, Inc), IntoCall);
    var fb := FillInto(nextId + 2, FnEl(b, Dec), IntoCall);
    var init := args[..2];
    var n2: nat := nextId + 2;
    var n3: nat := nextId + 3;
    var none: seq<Element> := [];
    assert init == [FnEl(a, Inc), FnEl(b, Dec)] && init[1..] == [FnEl(b, Dec)] && init[1..][1..] == [];
    assert IntoOne(init[0], nextId + 1) == Success((fa, n2));
    assert IntoOne(init[1], n2) == Success((fb, n3));
    assert IntoChain(init[1..][1..], n3) == Success((none, n3));
    assert [fb] + [] == [fb] && [fa] + [fb] == [fa, fb];
    assert IntoChain(init[1..], nextId + 2) == Success(([fb], nextId + 3));
    assert IntoChain(init, nextId + 1) == Success(([fa, fb], nextId + 3));
    assert [fa, fb] + [Probe(p)] == [fa, fb, Probe(p)];
  }

  lemma MapOne(g: Val -> Val, v: Val)
    ensures MapVals(g, [v]) == [g(v)]
  {
  }

  /** Filling that sequence with 1 stores 1: each element fills what it
      produces into the next. */
  lemma FillSeqAddSubFills(a: nat, b: nat, p: nat, nextId: nat, st: Store)
    requires StateOf(st, p) == VList([])
    ensures var args := [FnEl(a, Inc), FnEl(b, Dec), Probe(p)];
            var chain := [FillInto(nextId + 1, FnEl(a, Inc), IntoCall), FillInto(nextId + 2, FnEl(b, Dec), IntoCall), Probe(p)];
            Invoke(FillSeq(nextId, args, chain), st, "fill", [VInt(1)]) == Success((st[p := VList([VInt(1)])], VNone))
  {
    var fa := FillInto(nextId + 1, FnEl(a, Inc), IntoCall);
    var fb := FillInto(nextId + 2, FnEl(b, Dec), IntoCall);
    var chain := [fa, fb, Probe(p)];
    ChainAddSub(fa, fb, a, b, p, nextId, st);
    var after := FillChain(chain, st, [VInt(1)]);
    assert after == Success(st[p := VList([VInt(1)])]);
  }

  lemma ChainAddSub(fa: Element, fb: Element, a: nat, b: nat, p: nat, nextId: nat, st: Store)
    requires fa == FillInto(nextId + 1, FnEl(a, Inc), IntoCall) && fb == FillInto(nextId + 2, FnEl(b, Dec), IntoCall)
    requires StateOf(st, p) == VList([])
    ensures FillChain([fa, fb, Probe(p)], st, [VInt(1)]) == Success(st[p := VList([VInt(1)])])
  {
    assert [fa, fb, Probe(p)] == [fa] + [fb, Probe(p)] && [fb, Probe(p)] == [fb] + [Probe(p)];
    FillIntoCallMaps(nextId + 1, a, Inc, [fb, Probe(p)], st, [VInt(1)]);
    MapOne(Inc, VInt(1));
    FillIntoCallMaps(nextId + 2, b, Dec, [Probe(p)], st, [VInt(2)]);
    MapOne(Dec, VInt(2));
    ProbeFills(p, st, [], [VInt(1)]);
    assert [] + [VInt(1)] == [VInt(1)];
  }
}
