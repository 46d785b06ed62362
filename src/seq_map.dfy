// `seq_map` (lena/flow/functions.py): a sequence run on each value of a
// container separately.

module FlowSeqMap {
  import opened Wrappers
  import opened Values
  import opened CoreElements
  import opened CoreRun
  import CoreLaws

  /** `list(seq.run([val]))` for each value in turn; the element's state
      carries from one run to the next, the first exception propagates. */
  function RunEach(e: Element, st: Store, vals: seq<Val>): (r: Result<(Store, seq<seq<Val>>)>)
    ensures r.Success? ==> |r.value.1| == |vals|
    decreases |vals|
  {
    if |vals| == 0 then Success((st, []))
    else
      var (st1, first) :- RunFlow(e, st, [vals[0]]);
      var (st2, rest) :- RunEach(e, st1, vals[1..]);
      Success((st2, [first] + rest))
  }

  predicate AllSingle(results: seq<seq<Val>>)
  {
    forall i :: 0 <= i < |results| ==> |results[i]| == 1
  }

  function Firsts(results: seq<seq<Val>>): (r: seq<Val>)
    requires AllSingle(results)
    ensures |r| == |results|
    ensures forall i :: 0 <= i < |results| ==> r[i] == results[i][0]
  {
    if |results| == 0 then [] else [results[0][0]] + Firsts(results[1..])
  }

  /** What `seq_map` returns: single values, or the lists of results. */
  datatype Mapped = Singles(vals: seq<Val>) | Lists(lists: seq<seq<Val>>)

  /** `seq_map(seq, container, one_result)`: all runs are made first; then,
      with *one_result*, a run that did not give exactly one value raises
      LenaValueError, and otherwise each run's single value is returned in
      the container's order. */
  function SeqMap(e: Element, st: Store, container: seq<Val>, oneResult: bool): (r: Result<(Store, Mapped)>)
    ensures RunEach(e, st, container).Failure? ==> r == Failure(RunEach(e, st, container).error)
    ensures RunEach(e, st, container).Success? ==>
              var results := RunEach(e, st, container).value.1;
              (r.Success? <==> !oneResult || AllSingle(results))
              && (r.Failure? ==> r.error == LenaValueError)
              && (r.Success? ==> r.value.0 == RunEach(e, st, container).value.0)
              && (r.Success? && !oneResult ==> r.value.1 == Lists(results))
              && (r.Success? && oneResult ==>
                    r.value.1.Singles? && |r.value.1.vals| == |container|
                    && forall i :: 0 <= i < |container| ==> [r.value.1.vals[i]] == results[i])
  {
    var (st1, results) :- RunEach(e, st, container);
    if oneResult && !AllSingle(results) then Failure(LenaValueError)
    else if oneResult then Success((st1, Singles(Firsts(results))))
    else Success((st1, Lists(results)))
  }

  /** A sequence that maps each value gives one result per value. */
  lemma {:induction false} RunEachMaps(sid: nat, rid: nat, id: nat, g: Val -> Val, st: Store, vals: seq<Val>)
    ensures RunEach(CoreLaws.MapSeq(sid, rid, id, g), st, vals).Success?
    ensures RunEach(CoreLaws.MapSeq(sid, rid, id, g), st, vals).value.0 == st
    ensures var results := RunEach(CoreLaws.MapSeq(sid, rid, id, g), st, vals).value.1;
            forall i :: 0 <= i < |vals| ==> results[i] == [g(vals[i])]
    decreases |vals|
  {
    if |vals| > 0 {
      CoreLaws.MapSeqMaps(sid, rid, id, g, st, [vals[0]]);
      RunEachMaps(sid, rid, id, g, st, vals[1..]);
    }
  }

  /** Mapping a mapping sequence is the map of the container. */
  lemma SeqMapMaps(sid: nat, rid: nat, id: nat, g: Val -> Val, st: Store, vals: seq<Val>)
    ensures SeqMap(CoreLaws.MapSeq(sid, rid, id, g), st, vals, true)
            == Success((st, Singles(CoreLaws.MapVals(g, vals))))
  {
    RunEachMaps(sid, rid, id, g, st, vals);
    var results := RunEach(CoreLaws.MapSeq(sid, rid, id, g), st, vals).value.1;
    assert Firsts(results) == CoreLaws.MapVals(g, vals);
  }

  /** An element whose run doubles each value. */
  function Twice(id: nat): Element
  {
    User(id, map["run" := (s: Val, args: seq<Val>) => Success((s, VList(args + args)))])
  }

  /** With *one_result* a sequence giving two values for one raises
      LenaValueError; without it the lists are returned. */
  lemma SeqMapTwiceExample(id: nat, st: Store)
    ensures SeqMap(Twice(id), st, [VInt(1)], true) == Failure(LenaValueError)
    ensures SeqMap(Twice(id), st, [VInt(1)], false) == Success((st, Lists([[VInt(1), VInt(1)]])))
  {
    var two := [VInt(1), VInt(1)];
    assert [VInt(1)] + [VInt(1)] == two;
    var m := Twice(id).methods["run"];
    assert m(StateOf(st, id), [VInt(1)]) == Success((StateOf(st, id), VList(two)));
    assert Invoke(Twice(id), st, "run", [VInt(1)]) == Success((st, VList([VInt(1), VInt(1)])));
    assert RunFlow(Twice(id), st, [VInt(1)]) == Success((st, [VInt(1), VInt(1)]));
    assert [VInt(1)][1..] == [];
    assert RunEach(Twice(id), st, []) == Success((st, []));
    assert [two] + [] == [two];
    assert RunEach(Twice(id), st, [VInt(1)]) == Success((st, [[VInt(1), VInt(1)]]));
  }
}
