// What calling a method of an element does: user elements apply their
// method to their state in the store; the adapters (lena/core/adapters.py)
// and sequences (lena/core/sequence.py, source.py, fill_seq.py,
// fill_compute_seq.py, split.py) delegate to the elements they hold.
// Flows are finite and evaluated eagerly.

module CoreRun {
  import opened Wrappers
  import opened Values
  import opened CoreElements

  /** The characters of a string, as one-character strings. */
  function Chars(s: string): (r: seq<Val>)
    ensures |r| == |s|
    ensures forall i :: 0 <= i < |s| ==> r[i] == VStr([s[i]])
  {
    if |s| == 0 then [] else [VStr([s[0]])] + Chars(s[1..])
  }

  /** Iterating a returned value: lists and tuples give their items, strings
      their characters; other values are not iterable here. */
  function Iterate(v: Val): (r: Result<seq<Val>>)
    ensures v.VList? || v.VTuple? ==> r == Success(v.items)
    ensures v.VStr? ==> r == Success(Chars(v.s))
    ensures r.Success? <==> v.VList? || v.VTuple? || v.VStr?
    ensures r.Failure? ==> r.error == PyTypeError
  {
    match v
    case VList(items) => Success(items)
    case VTuple(items) => Success(items)
    case VStr(s) => Success(Chars(s))
    case _ => Failure(PyTypeError)
  }

  /** The error of calling a missing method: calling a non-callable object
      is a TypeError, a missing attribute an AttributeError. */
  function NoMethod(name: string): Error
  {
    if name == "__call__" then PyTypeError else PyAttributeError
  }

  /** The stop argument of `itertools.islice`: None or a non-negative
      integer (a bool counts as one). */
  function IsliceStop(v: Val): (r: Result<Option<nat>>)
    ensures r.Failure? ==> r.error == PyValueError
    ensures v.VInt? && v.i >= 0 ==> r == Success(Some(v.i))
  {
    match v
    case VNone => Success(None)
    case VBool(b) => Success(Some(if b then 1 else 0))
    case VInt(i) => if i >= 0 then Success(Some(i)) else Failure(PyValueError)
    case _ => Failure(PyValueError)
  }

  /** A branch of a running `Split`. */
  datatype Branch = Branch(el: Element, kind: SeqType)

  function Branches(seqs: seq<Element>, types: seq<SeqType>): (r: seq<Branch>)
    ensures |r| == if |seqs| <= |types| then |seqs| else |types|
    ensures forall i :: 0 <= i < |r| ==> r[i] == Branch(seqs[i], types[i])
  {
    if |seqs| == 0 || |types| == 0 then [] else [Branch(seqs[0], types[0])] + Branches(seqs[1..], types[1..])
  }

  predicate Bounded(active: seq<Branch>, bound: nat)
  {
    forall i :: 0 <= i < |active| ==> Size(active[i].el) <= bound
  }

  lemma {:induction false} BranchesBounded(seqs: seq<Element>, types: seq<SeqType>)
    ensures Bounded(Branches(seqs, types), SizeAll(seqs))
  {
    var bs := Branches(seqs, types);
    forall i | 0 <= i < |bs| ensures Size(bs[i].el) <= SizeAll(seqs) {
      SizeAllMember(seqs, i);
    }
  }

  /** The store with the state of *id* set to *s*; a state that does not
      change is not recorded. */
  function Updated(st: Store, id: nat, s: Val): (r: Store)
    ensures StateOf(r, id) == s
    ensures forall j :: j != id ==> StateOf(r, j) == StateOf(st, j)
    ensures s == StateOf(st, id) ==> r == st
    ensures id in st ==> r == st[id := s]
  {
    if s == StateOf(st, id) then st else st[id := s]
  }

  /** `getattr(e, name)(*args)`: the new store and the returned value. */
  function Invoke(e: Element, st: Store, name: string, args: seq<Val>): (r: Result<(Store, Val)>)
    // plain data has no methods
    ensures e.Data? || e.Tuple? || e.List? ==> r == Failure(NoMethod(name))
    // a user element has only its own methods
    ensures e.User? && name !in e.methods ==> r == Failure(NoMethod(name))
    // a split without sequences passes the flow through
    ensures e.Split? && name == "run" && |e.seqs| == 0 ==> r == Success((st, VList(args)))
    decreases Size(e), 0, 0
  {
    match e
    case Data(_) => Failure(NoMethod(name))
    case Tuple(_) => Failure(NoMethod(name))
    case List(_) => Failure(NoMethod(name))
    case User(id, ms) =>
      if name !in ms then Failure(NoMethod(name))
      else
        var (s, ret) :- ms[name](StateOf(st, id), args);
        Success((Updated(st, id, s), ret))
    case Run(_, el, mode) =>
      if name != "run" then Failure(NoMethod(name))
      else
        var (st1, outs) :- RunByMode(el, mode, st, args);
        Success((st1, VList(outs)))
    case Call(_, el, n) =>
      if name != "__call__" then Failure(NoMethod(name)) else Invoke(el, st, n, args)
    case SourceEl(_, el, n) =>
      if name != "__call__" then Failure(NoMethod(name)) else Invoke(el, st, n, args)
    case FillCompute(_, el, f, c) =>
      if name == "fill" then Invoke(el, st, f, args)
      else if name == "compute" then Invoke(el, st, c, args)
      else Failure(NoMethod(name))
    case FillInto(_, el, into) =>
      if name != "fill_into" then Failure(NoMethod(name))
      else
        (match into
         case IntoMethod(n) => Invoke(el, st, n, args)
         case IntoCall =>
           var (st1, r) :- Invoke(el, st, "__call__", args);
           Success((st1, VList([r])))
         case IntoRun =>
           var (st1, outs) :- RunFlow(el, st, args);
           Success((st1, VList(outs))))
    case FillRequest(_, el, f, rq, b, ownRun) =>
      if name == "fill" then Invoke(el, st, f, args)
      else if name == "request" then RequestOf(el, rq, st)
      else if name == "run" then
        if ownRun then Invoke(el, st, "run", args)
        else
          var (st1, outs) :- FillRequestRun(el, f, rq, if b == 0 then 1 else b, st, args, false);
          Success((st1, VList(outs)))
      else Failure(NoMethod(name))
    case Sequence(_, els) =>
      if name != "run" then Failure(NoMethod(name))
      else
        var (st1, outs) :- RunAll(els, st, args);
        Success((st1, VList(outs)))
    case Source(_, srcArgs, tail) =>
      if name != "__call__" then Failure(NoMethod(name))
      else if |srcArgs| == 0 then Failure(PyIndexError)
      else
        SizeAllMember(srcArgs, 0);
        var (st1, flow) :- HeadFlow(srcArgs[0], st);
        if tail.None? then Success((st1, VList(flow)))
        else
          var (st2, outs) :- RunFlow(tail.value, st1, flow);
          Success((st2, VList(outs)))
    case FillSeq(_, _, chain) =>
      if name != "fill" then Failure(NoMethod(name))
      else
        var st1 :- FillChain(chain, st, args);
        Success((st1, VNone))
    case FillComputeSeq(_, _, before, fc, after) =>
      if name == "fill" then Invoke(before, st, "fill", args)
      else if name == "compute" then
        var (st1, c) :- Invoke(fc, st, "compute", []);
        var flow :- Iterate(c);
        var (st2, outs) :- RunFlow(after, st1, flow);
        Success((st2, VList(outs)))
      else Failure(NoMethod(name))
    case Split(_, seqs, types, b, _) =>
      if name == "run" then
        if |seqs| == 0 then Success((st, VList(args)))
        else
          var stop :- IsliceStop(b);
          BranchesBounded(seqs, types);
          var (st1, outs) :- SplitBuffers(SizeAll(seqs), Branches(seqs, types), stop, st, args, true);
          Success((st1, VList(outs)))
      else if name == "__call__" then
        if !AllOfType(types, SourceType) then Failure(LenaAttributeError)
        else
          var (st1, outs) :- InvokeEach(seqs, st, "__call__");
          Success((st1, VList(outs)))
      else if name == "fill" && (AllOfType(types, FillComputeType) || AllOfType(types, FillRequestType)) then
        var st1 :- FillEachBranch(seqs, st, args);
        Success((st1, VNone))
      else if name == "compute" && AllOfType(types, FillComputeType) then
        var (st1, outs) :- InvokeEach(seqs, st, "compute");
        Success((st1, VList(outs)))
      else if name == "request" && AllOfType(types, FillRequestType) then
        var (st1, outs) :- InvokeEach(seqs, st, "request");
        Success((st1, VList(outs)))
      else Failure(NoMethod(name))
  }

  /** `e.run(flow)`, iterated. */
  function RunFlow(e: Element, st: Store, flow: seq<Val>): (r: Result<(Store, seq<Val>)>)
    ensures e.Data? || e.Tuple? || e.List? ==> r == Failure(PyAttributeError)
    ensures e.Split? && |e.seqs| == 0 ==> r == Success((st, flow))
    decreases Size(e), 1, 0
  {
    var (st1, ret) :- Invoke(e, st, "run", flow);
    var outs :- Iterate(ret);
    Success((st1, outs))
  }

  /** The flow a `Source` starts from: the head called, or the head itself
      when it is an iterable of data. */
  function HeadFlow(first: Element, st: Store): Result<(Store, seq<Val>)>
    decreases Size(first), 1, 0
  {
    if Callable(first) then
      var (st1, ret) :- Invoke(first, st, "__call__", []);
      var flow :- Iterate(ret);
      Success((st1, flow))
    else if first.Data? then
      var flow :- Iterate(first.v);
      Success((st, flow))
    else if first.User? && "__iter__" in first.methods then
      var (st1, ret) :- Invoke(first, st, "__iter__", []);
      var flow :- Iterate(ret);
      Success((st1, flow))
    else Failure(PyTypeError)
  }

  /** `el(value)` for every value of the flow, in order. */
  function CallEach(el: Element, st: Store, flow: seq<Val>): Result<(Store, seq<Val>)>
    decreases Size(el), 1, |flow|
  {
    if |flow| == 0 then Success((st, []))
    else
      var (st1, r) :- Invoke(el, st, "__call__", [flow[0]]);
      var (st2, rest) :- CallEach(el, st1, flow[1..]);
      Success((st2, [r] + rest))
  }

  /** Call the fill method *name* with every value, in order. */
  function FillEach(el: Element, st: Store, name: string, vals: seq<Val>): Result<Store>
    decreases Size(el), 1, |vals|
  {
    if |vals| == 0 then Success(st)
    else
      var (st1, _) :- Invoke(el, st, name, [vals[0]]);
      FillEach(el, st1, name, vals[1..])
  }

  /** `FillRequest.request()`: the element's request method, or its
      `compute()` followed by `reset()`. */
  function RequestOf(el: Element, rq: Option<string>, st: Store): Result<(Store, Val)>
    decreases Size(el), 1, 0
  {
    match rq
    case Some(n) => Invoke(el, st, n, [])
    case None =>
      var (st1, c) :- Invoke(el, st, "compute", []);
      var outs :- Iterate(c);
      var (st2, _) :- Invoke(el, st1, "reset", []);
      Success((st2, VList(outs)))
  }

  /** What `FillRequest.request()` yields. */
  function RequestYield(el: Element, rq: Option<string>, st: Store): Result<(Store, seq<Val>)>
    decreases Size(el), 1, 1
  {
    var (st1, ret) :- RequestOf(el, rq, st);
    var outs :- Iterate(ret);
    Success((st1, outs))
  }

  /** One slice of `FillRequest.run`: every value filled, then what
      `request()` yields. */
  function FillAndRequest(el: Element, f: string, rq: Option<string>, st: Store, slice: seq<Val>)
    : Result<(Store, seq<Val>)>
    decreases Size(el), 2, 0
  {
    var st1 :- FillEach(el, st, f, slice);
    RequestYield(el, rq, st1)
  }

  /** `FillRequest.run(flow)`: fill with at most *bufsize* values, then
      yield what `request()` gives; an empty flow still makes one request,
      an empty remainder none. The flow is consumed as one iterator; the
      program as written restarts a list at its head on every pass
      (`CoreLaws.FillRequestAsWritten`). */
  function FillRequestRun(el: Element, f: string, rq: Option<string>, bufsize: nat, st: Store,
                          flow: seq<Val>, filledOnce: bool): (r: Result<(Store, seq<Val>)>)
    requires bufsize >= 1
    // a flow that fits in one buffer is filled, then requested once
    ensures 0 < |flow| <= bufsize ==> r == FillAndRequest(el, f, rq, st, flow)
    // an empty remainder makes no request
    ensures |flow| == 0 && filledOnce ==> r == Success((st, []))
    decreases Size(el), 2, |flow|
  {
    if |flow| == 0 then
      if filledOnce then Success((st, [])) else RequestYield(el, rq, st)
    else
      var k := if bufsize < |flow| then bufsize else |flow|;
      assert k == |flow| ==> flow[..k] == flow && flow[k..] == [];
      var (st2, outs) :- FillAndRequest(el, f, rq, st, flow[..k]);
      var (st3, rest) :- FillRequestRun(el, f, rq, bufsize, st2, flow[k..], true);
      assert k == |flow| ==> st3 == st2 && outs + rest == outs;
      Success((st3, outs + rest))
  }

  /** `Run.run(flow)` for each way `Run` was built. */
  function RunByMode(el: Element, mode: RunMode, st: Store, flow: seq<Val>): Result<(Store, seq<Val>)>
    decreases Size(el), 3, 0
  {
    match mode
    case RunMethod(n) =>
      var (st1, ret) :- Invoke(el, st, n, flow);
      var outs :- Iterate(ret);
      Success((st1, outs))
    case CallEach => CallEach(el, st, flow)
    case FillComputeAll =>
      var st1 :- FillEach(el, st, "fill", flow);
      var (st2, ret) :- Invoke(el, st1, "compute", []);
      var outs :- Iterate(ret);
      Success((st2, outs))
    case Given(f) =>
      var (_, ret) :- f(VNone, flow);
      var outs :- Iterate(ret);
      Success((st, outs))
    case NotCallable => Failure(PyTypeError)
  }

  /** `Sequence.run(flow)`: the output of each element is the input of the
      next one. */
  function RunAll(els: seq<Element>, st: Store, flow: seq<Val>): (r: Result<(Store, seq<Val>)>)
    ensures |els| == 0 ==> r == Success((st, flow))
    ensures |els| == 1 ==> r == RunFlow(els[0], st, flow)
    decreases SizeAll(els), 2, 0
  {
    if |els| == 0 then Success((st, flow))
    else
      var (st1, outs) :- RunFlow(els[0], st, flow);
      RunAll(els[1..], st1, outs)
  }

  /** `FillSeq.fill(value)`: each element fills the values it produces
      into the rest of the chain; the last element is filled. */
  function FillChain(chain: seq<Element>, st: Store, vals: seq<Val>): Result<Store>
    decreases SizeAll(chain), 2, |vals|
  {
    if |chain| == 0 then Success(st)
    else if |chain| == 1 then FillEach(chain[0], st, "fill", vals)
    else if |vals| == 0 then Success(st)
    else
      var (st1, ret) :- Invoke(chain[0], st, "fill_into", [vals[0]]);
      var vs :- Iterate(ret);
      var st2 :- FillChain(chain[1..], st1, vs);
      FillChain(chain, st2, vals[1..])
  }

  /** The method *name* of every element without arguments, with the
      iterated results concatenated. */
  function InvokeEach(els: seq<Element>, st: Store, name: string): Result<(Store, seq<Val>)>
    decreases SizeAll(els), 2, 0
  {
    if |els| == 0 then Success((st, []))
    else
      var (st1, ret) :- Invoke(els[0], st, name, []);
      var outs :- Iterate(ret);
      var (st2, rest) :- InvokeEach(els[1..], st1, name);
      Success((st2, outs + rest))
  }

  /** `Split.fill(value)`: every branch is filled with the value. */
  function FillEachBranch(els: seq<Element>, st: Store, args: seq<Val>): Result<Store>
    decreases SizeAll(els), 2, 0
  {
    if |els| == 0 then Success(st)
    else
      var (st1, _) :- Invoke(els[0], st, "fill", args);
      FillEachBranch(els[1..], st1, args)
  }

  /** Fill with the values in order until one fill raises LenaStopFill;
      the flag tells whether that happened. */
  function FillUntilStop(el: Element, st: Store, vals: seq<Val>): Result<(Store, bool)>
    decreases Size(el), 1, |vals|
  {
    if |vals| == 0 then Success((st, false))
    else
      match Invoke(el, st, "fill", [vals[0]])
      case Failure(LenaStopFill) => Success((st, true))
      case Failure(err) => Failure(err)
      case Success((st1, _)) => FillUntilStop(el, st1, vals[1..])
  }

  /** What one branch does with one buffer: whether it is done (a source,
      or a fill that raised LenaStopFill), the new store and what it
      yields. */
  function BranchStep(bound: nat, b: Branch, st: Store, buf: seq<Val>): Result<(bool, Store, seq<Val>)>
    requires Size(b.el) <= bound
    decreases bound, 2, 0
  {
    var x := b.el;
    match b.kind
    case SourceType =>
      var (st1, ret) :- Invoke(x, st, "__call__", []);
      var outs :- Iterate(ret);
      Success((true, st1, outs))
    case FillComputeType =>
      var (st1, stopped) :- FillUntilStop(x, st, buf);
      if stopped then
        var (st2, ret) :- Invoke(x, st1, "compute", []);
        var outs :- Iterate(ret);
        Success((true, st2, outs))
      else Success((false, st1, []))
    case FillRequestType =>
      var (st1, stopped) :- FillUntilStop(x, st, buf);
      var (st2, ret) :- Invoke(x, st1, "request", []);
      var outs :- Iterate(ret);
      Success((stopped, st2, outs))
    case SequenceType =>
      var (st1, outs) :- RunFlow(x, st, buf);
      Success((false, st1, outs))
  }

  /** One buffer through the active branches of `Split.run`, in order: the
      remaining active branches, the store and the outputs. */
  function SplitBranches(bound: nat, active: seq<Branch>, st: Store, buf: seq<Val>)
    : (r: Result<(seq<Branch>, Store, seq<Val>)>)
    requires Bounded(active, bound)
    ensures r.Success? ==> Bounded(r.value.0, bound) && |r.value.0| <= |active|
    decreases bound, 2, |active|
  {
    if |active| == 0 then Success(([], st, []))
    else
      var (done, st1, outs) :- BranchStep(bound, active[0], st, buf);
      var (rest, st2, more) :- SplitBranches(bound, active[1..], st1, buf);
      Success((if done then rest else [active[0]] + rest, st2, outs + more))
  }

  /** What one branch yields after the flow: a source runs (only possible
      when the flow was empty), a FillCompute branch computes, and the
      other branches yield only if the flow was empty. */
  function FinishStep(bound: nat, b: Branch, st: Store, flowWasEmpty: bool): Result<(Store, seq<Val>)>
    requires Size(b.el) <= bound
    decreases bound, 2, 0
  {
    var x := b.el;
    match b.kind
    case SourceType =>
      if !flowWasEmpty then Failure(PyAssertionError)
      else
        var (s, ret) :- Invoke(x, st, "__call__", []);
        var o :- Iterate(ret);
        Success((s, o))
    case FillComputeType =>
      var (s, ret) :- Invoke(x, st, "compute", []);
      var o :- Iterate(ret);
      Success((s, o))
    case FillRequestType =>
      if !flowWasEmpty then Success((st, []))
      else
        var (s, ret) :- Invoke(x, st, "request", []);
        var o :- Iterate(ret);
        Success((s, o))
    case SequenceType =>
      if !flowWasEmpty then Success((st, [])) else RunFlow(x, st, [])
  }

  /** After the flow, every active branch finishes, in order. */
  function SplitFinish(bound: nat, active: seq<Branch>, st: Store, flowWasEmpty: bool)
    : Result<(Store, seq<Val>)>
    requires Bounded(active, bound)
    decreases bound, 2, |active|
  {
    if |active| == 0 then Success((st, []))
    else
      var (st1, outs) :- FinishStep(bound, active[0], st, flowWasEmpty);
      var (st2, more) :- SplitFinish(bound, active[1..], st1, flowWasEmpty);
      Success((st2, outs + more))
  }

  /** `Split.run(flow)`: buffers of *bufsize* values (all values when it is
      None) go through the active branches, then the branches finish. */
  function SplitBuffers(bound: nat, active: seq<Branch>, bufsize: Option<nat>, st: Store,
                        flow: seq<Val>, flowWasEmpty: bool): (r: Result<(Store, seq<Val>)>)
    requires Bounded(active, bound)
    // a zero buffer size consumes nothing
    ensures bufsize == Some(0) ==> r == SplitFinish(bound, active, st, flowWasEmpty)
    // without a buffer size the whole flow is one buffer
    ensures bufsize.None? && |flow| > 0 ==>
      r == (var (active1, st1, outs) :- SplitBranches(bound, active, st, flow);
            var (st2, more) :- SplitFinish(bound, active1, st1, false);
            Success((st2, outs + more)))
    decreases bound, 3, |flow|
  {
    if |flow| == 0 || bufsize == Some(0) then SplitFinish(bound, active, st, flowWasEmpty)
    else
      var k := if bufsize.None? || bufsize.value >= |flow| then |flow| else bufsize.value;
      assert k == |flow| ==> flow[..k] == flow && flow[k..] == [];
      var (active1, st1, outs) :- SplitBranches(bound, active, st, flow[..k]);
      var (st2, more) :- SplitBuffers(bound, active1, bufsize, st1, flow[k..], false);
      Success((st2, outs + more))
  }
}
