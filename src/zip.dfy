// `Zip` (lena/flow/zip.py): like `Split`, but the branches' outputs are
// zipped into tuples, with a context built from theirs.

module FlowZip {
  import opened Wrappers
  import opened Values
  import opened FlowFunctions
  import opened ContextFunctions
  import opened ContextSets
  import opened CoreElements
  import opened CoreRun
  import opened CoreBuild
  import opened FlowGroupPlots

  /** The branches and their common type. */
  datatype Zip = Zip(seqs: seq<Element>, kind: SeqType)

  /** `Zip.__init__(sequences)`: at least one branch, each classified as
      `Split` does; all must be of one type, and only fill-compute and
      fill-request branches are supported. */
  function MakeZip(sequences: seq<Element>, nextId: nat): (r: Result<(Zip, nat)>)
    ensures |sequences| == 0 ==> r == Failure(LenaTypeError)
    ensures r.Success? ==>
              ClassifyAll(sequences, nextId).Success?
              && r.value.0.seqs == ClassifyAll(sequences, nextId).value.0
              && AllOfType(ClassifyAll(sequences, nextId).value.1, r.value.0.kind)
              && (r.value.0.kind == FillComputeType || r.value.0.kind == FillRequestType)
    ensures |sequences| > 0 && ClassifyAll(sequences, nextId).Success? ==>
              var types := ClassifyAll(sequences, nextId).value.1;
              (!AllOfType(types, types[0]) ==> r == Failure(LenaTypeError))
              && (AllOfType(types, SourceType) || AllOfType(types, SequenceType) ==> r == Failure(LenaNotImplementedError))
  {
    if |sequences| == 0 then Failure(LenaTypeError)
    else
      var (seqs, types, next) :- ClassifyAll(sequences, nextId);
      if !AllOfType(types, types[0]) then Failure(LenaTypeError)
      else if types[0] == FillComputeType || types[0] == FillRequestType then Success((Zip(seqs, types[0]), next))
      else Failure(LenaNotImplementedError)
  }

  /** `_fill(val)`: every branch is filled with the value, in order. */
  function ZipFill(z: Zip, st: Store, val: Val): Result<Store>
  {
    FillEachBranch(z.seqs, st, [val])
  }

  /** Filling a Zip fills its branches exactly as a Split over them does. */
  lemma ZipFillAsSplit(z: Zip, id: nat, buffer: Val, copyBuf: bool, st: Store, val: Val)
    requires z.kind == FillComputeType || z.kind == FillRequestType
    ensures var types := seq(|z.seqs|, _ => z.kind);
            |z.seqs| > 0 ==>
              Invoke(Split(id, z.seqs, types, buffer, copyBuf), st, "fill", [val])
              == (var st1 :- ZipFill(z, st, val); Success((st1, VNone)))
  {
  }

  // ------------------------------------------------------------------
  // _yield

  /** The length of the shortest list. */
  function MinLen(results: seq<seq<Val>>): (r: nat)
    requires |results| > 0
    ensures forall b :: 0 <= b < |results| ==> r <= |results[b]|
    ensures exists b :: 0 <= b < |results| && r == |results[b]|
  {
    if |results| == 1 then |results[0]|
    else
      var rest := MinLen(results[1..]);
      assert forall b :: 1 <= b < |results| ==> results[b] == results[1..][b - 1];
      if |results[0]| <= rest then |results[0]| else rest
  }

  /** The *i*-th value of every branch, in branch order. */
  function RoundAt(results: seq<seq<Val>>, i: nat): (r: seq<Val>)
    ensures |r| == |results|
    ensures forall b :: 0 <= b < |results| && i < |results[b]| ==> r[b] == results[b][i]
  {
    seq(|results|, b requires 0 <= b < |results| => Nth(results[b], i))
  }

  /** `intersection(*contexts, level=1)`, which cannot fail on contexts. */
  function Common(contexts: seq<Dict>): (r: Dict)
    ensures Intersection(DictVals(contexts), map["level" := 1]) == Success(r)
  {
    DictValsAreDicts(contexts);
    Intersection(DictVals(contexts), map["level" := 1]).value
  }

  /** What each context has beyond the common one. */
  function Diffs(contexts: seq<Dict>, common: Dict): (r: seq<Val>)
    ensures |r| == |contexts|
    ensures forall i :: 0 <= i < |contexts| ==> r[i] == Difference(VDict(contexts[i]), VDict(common), -1)
  {
    if |contexts| == 0 then [] else [Difference(VDict(contexts[0]), VDict(common), -1)] + Diffs(contexts[1..], common)
  }

  /** The differences as written, with `difference` dropping falsy
      results. */
  function DiffsAsWritten(contexts: seq<Dict>, common: Dict): (r: seq<Val>)
    ensures |r| == |contexts|
    ensures forall i :: 0 <= i < |contexts| ==> r[i] == DifferenceAsWritten(VDict(contexts[i]), VDict(common), -1)
  {
    seq(|contexts|, i requires 0 <= i < |contexts| => DifferenceAsWritten(VDict(contexts[i]), VDict(common), -1))
  }

  /** Every key of the common context is in each context with an equal
      value, so the differences as written are the corrected ones. */
  lemma DiffsAgree(contexts: seq<Dict>)
    ensures DiffsAsWritten(contexts, Common(contexts)) == Diffs(contexts, Common(contexts))
  {
    var common := Common(contexts);
    if |contexts| > 0 {
      var vals := DictVals(contexts);
      DictValsAreDicts(contexts);
      assert vals[1..] == DictVals(contexts[1..]);
      DictValsAreDicts(contexts[1..]);
      assert common == IntersectAll(contexts[0], contexts[1..], 1);
      IntersectAllLevel1(contexts[0], contexts[1..]);
      forall i | 0 <= i < |contexts|
        ensures DifferenceAsWritten(VDict(contexts[i]), VDict(common), -1) == Difference(VDict(contexts[i]), VDict(common), -1)
      {
        if i > 0 {
          assert contexts[1..][i - 1] == contexts[i];
        }
        DifferenceAgrees(contexts[i], common, -1);
      }
    }
  }

  /** `any(diff_context)`: some context has something the others lack. */
  predicate AnyDiff(diffs: seq<Val>)
  {
    exists i :: 0 <= i < |diffs| && Truthy(diffs[i])
  }

  /** `_create_context(contexts)` as intended: the common context, with
      `zip` set to the tuple of differences when any is non-empty.
      This is the corrected behaviour; the program as written is `CreateContextAsWritten`. */
  function CreateContext(contexts: seq<Dict>): (r: Result<Dict>)
    ensures !AnyDiff(Diffs(contexts, Common(contexts))) ==> r == Success(Common(contexts))
    ensures AnyDiff(Diffs(contexts, Common(contexts))) && "zip" !in Common(contexts) ==>
              r == Success(Common(contexts)["zip" := VTuple(Diffs(contexts, Common(contexts)))])
  {
    var common := Common(contexts);
    var diffs := Diffs(contexts, common);
    if AnyDiff(diffs) then UpdateNested("zip", common, VTuple(diffs)) else Success(common)
  }

  /** `_create_context` as written: `update_nested` is called without its
      key, which Python rejects with TypeError whenever a difference is
      non-empty. */
  function CreateContextAsWritten(contexts: seq<Dict>): (r: Result<Dict>)
    ensures r.Failure? <==> AnyDiff(Diffs(contexts, Common(contexts)))
    ensures r.Failure? ==> r.error == PyTypeError
    ensures r.Success? ==> r == CreateContext(contexts)
  {
    var common := Common(contexts);
    DiffsAgree(contexts);
    if AnyDiff(DiffsAsWritten(contexts, common)) then Failure(PyTypeError) else Success(common)
  }

  /** How a round's context is created: `CreateContext` as intended, or
      `CreateContextAsWritten`. */
  type Creator = seq<Dict> -> Result<Dict>

  /** One zipped value: the tuple of data parts, with the created context
      when it is not empty. */
  function ZipRound(round: seq<Val>, create: Creator): (r: Result<Val>)
    ensures r.Success? ==>
              r.value == VTuple(DataOf(round))
              || (HasContext(r.value) && GetData(r.value) == VTuple(DataOf(round)) && GetContext(r.value) != map[])
  {
    var contexts := ContextsOf(round);
    var ctx :- create(contexts);
    Success(if ctx == map[] then VTuple(DataOf(round)) else Pair(VTuple(DataOf(round)), ctx))
  }

  /** `_yield(results)`: one value per round up to the shortest branch. */
  function Zipped(results: seq<seq<Val>>, create: Creator): (r: Result<seq<Val>>)
    requires |results| > 0
    ensures r.Success? ==> |r.value| == MinLen(results)
  {
    Gather(Rounds(results, create), 0, MinLen(results))
  }

  /** The zipped value of each round. */
  function Rounds(results: seq<seq<Val>>, create: Creator): nat -> Result<Val>
  {
    (i: nat) => ZipRound(RoundAt(results, i), create)
  }

  /** The zipped values are the rounds, in order, stopping at the shortest
      branch: the *i*-th holds the tuple of the branches' *i*-th data
      parts; the first context that cannot be created ends the output. */
  lemma ZippedRounds(results: seq<seq<Val>>, create: Creator)
    requires |results| > 0
    ensures var m := MinLen(results);
            Zipped(results, create).Success? <==>
              forall i :: 0 <= i < m ==> ZipRound(RoundAt(results, i), create).Success?
    ensures var m := MinLen(results);
            Zipped(results, create).Success? ==>
              forall i :: 0 <= i < m ==> Zipped(results, create).value[i] == ZipRound(RoundAt(results, i), create).value
  {
    var m := MinLen(results);
    var f := Rounds(results, create);
    GatherFromStart(f, m);
    forall i | 0 <= i < m
      ensures f(i) == ZipRound(RoundAt(results, i), create)
    {
    }
  }

  /** What was gathered before *r*, in front of its values. */
  function Before(done: seq<Val>, r: Result<seq<Val>>): Result<seq<Val>>
  {
    var rest :- r;
    Success(done + rest)
  }

  lemma BeforeNothing(r: Result<seq<Val>>)
    ensures Before([], r) == r
  {
    if r.Success? {
      assert [] + r.value == r.value;
    }
  }

  lemma BeforeTwice(done: seq<Val>, x: Val, r: Result<seq<Val>>)
    ensures Before(done, Before([x], r)) == Before(done + [x], r)
  {
    if r.Success? {
      assert done + ([x] + r.value) == (done + [x]) + r.value;
    }
  }

  /** The `for res in results` loop of `_yield`: the next value of every
      branch in turn, until one is exhausted. */
  method TakeRound(results: seq<seq<Val>>, i: nat) returns (value: seq<Val>, exhausted: bool)
    ensures exhausted <==> exists j :: 0 <= j < |results| && i >= |results[j]|
    ensures !exhausted ==> value == RoundAt(results, i)
  {
    value := [];
    exhausted := false;
    var b := 0;
    while b < |results|
      invariant 0 <= b <= |results|
      invariant forall j :: 0 <= j < b ==> i < |results[j]|
      invariant value == RoundAt(results, i)[..b]
    {
      if i >= |results[b]| {
        exhausted := true;
        return;
      }
      assert RoundAt(results, i)[..b + 1] == RoundAt(results, i)[..b] + [results[b][i]];
      value := value + [results[b][i]];
      b := b + 1;
    }
  }

  /** The `while True` loop of `_yield`: each round takes the next value of
      every branch, and the first exhausted branch ends the loop. */
  method ZipYield(results: seq<seq<Val>>) returns (r: Result<seq<Val>>)
    requires |results| > 0
    ensures r == Zipped(results, CreateContext)
  {
    ghost var f := Rounds(results, CreateContext);
    ghost var m := MinLen(results);
    var outs: seq<Val> := [];
    var i := 0;
    BeforeNothing(Zipped(results, CreateContext));
    while true
      invariant 0 <= i <= m
      invariant Zipped(results, CreateContext) == Before(outs, Gather(f, i, m))
      decreases m - i
    {
      var value, exhausted := TakeRound(results, i);
      if exhausted {
        break;
      }
      assert i < m;
      var out := ZipRound(value, CreateContext);
      if out.Failure? {
        return Failure(out.error);
      }
      BeforeTwice(outs, out.value, Gather(f, i + 1, m));
      outs := outs + [out.value];
      i := i + 1;
    }
    assert i == m;
    assert outs + [] == outs;
    return Success(outs);
  }

  // ------------------------------------------------------------------
  // compute / request

  /** The results of every branch's *name* method, each iterated, in
      branch order. */
  function CollectResults(els: seq<Element>, st: Store, name: string): (r: Result<(Store, seq<seq<Val>>)>)
    ensures r.Success? ==> |r.value.1| == |els|
  {
    if |els| == 0 then Success((st, []))
    else
      var (st1, ret) :- Invoke(els[0], st, name, []);
      var outs :- Iterate(ret);
      var (st2, rest) :- CollectResults(els[1..], st1, name);
      Success((st2, [outs] + rest))
  }

  /** `compute()` or `request()` (by the branches' type): all branches
      are asked first, then their results are zipped. */
  function ZipOutput(z: Zip, st: Store): Result<(Store, seq<Val>)>
    requires |z.seqs| > 0
  {
    var name := if z.kind == FillComputeType then "compute" else "request";
    var (st1, results) :- CollectResults(z.seqs, st, name);
    var outs :- Zipped(results, CreateContext);
    Success((st1, outs))
  }

  // ------------------------------------------------------------------
  // Contexts

  lemma IntersectSame(c: Dict)
    ensures IntersectPair(c, c, 1) == c
  {
  }

  lemma {:induction false} IntersectAllSame(c: Dict, rest: seq<Dict>)
    requires forall j :: 0 <= j < |rest| ==> rest[j] == c
    ensures IntersectAll(c, rest, 1) == c
    decreases |rest|
  {
    if |rest| > 0 {
      IntersectSame(c);
      IntersectAllSame(c, rest[1..]);
    }
  }

  /** Branches that all give one context: that context is kept, and no
      `zip` key is added. */
  lemma SameContexts(contexts: seq<Dict>, c: Dict)
    requires |contexts| > 0
    requires forall j :: 0 <= j < |contexts| ==> contexts[j] == c
    ensures CreateContext(contexts) == Success(c)
    ensures CreateContextAsWritten(contexts) == Success(c)
  {
    DictValsAreDicts(contexts);
    assert DictsOf(DictVals(contexts)[1..]) == contexts[1..];
    IntersectAllSame(c, contexts[1..]);
    assert Common(contexts) == c;
    var diffs := Diffs(contexts, c);
    assert forall j :: 0 <= j < |diffs| ==> diffs[j] == EmptyDict;
  }

  /** The zip of a value with no context and one with context
      {"new_context": 1}: as written this raises TypeError; as intended
      the context is {"zip": ({}, {"new_context": 1})}. */
  lemma ZipContextExample()
    ensures
      var c := map["new_context" := VInt(1)];
      CreateContextAsWritten([map[], c]) == Failure(PyTypeError)
      && CreateContext([map[], c]) == Success(map["zip" := VTuple([EmptyDict, VDict(c)])])
  {
    var c := map["new_context" := VInt(1)];
    var contexts: seq<Dict> := [map[], c];
    assert DictVals(contexts) == [VDict(map[]), VDict(c)];
    assert DictsOf(DictVals(contexts)[1..]) == [c];
    assert IntersectPair(map[], c, 1) == map[];
    assert Common(contexts) == map[];
    assert Difference(VDict(map[]), VDict(map[]), -1) == EmptyDict;
    assert Difference(VDict(c), VDict(map[]), -1) == VDict(c);
    var diffs := Diffs(contexts, map[]);
    assert diffs == [EmptyDict, VDict(c)];
    assert "new_context" in c;
    assert Truthy(diffs[1]);
  }
}
