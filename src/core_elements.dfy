// Lena elements as values: user elements, the adapters of
// lena/core/adapters.py, and the sequences of lena/core (Sequence, Source,
// FillSeq, FillComputeSeq, Split); the capability predicates of
// lena/core/check_sequence_type.py; the container view of
// lena/core/lena_sequence.py.

module CoreElements {
  import opened Wrappers
  import opened Values

  /** A method of a user element, as a function of the element's state and
      the call's arguments, giving the new state and the returned value. By
      convention `run(flow)` gets the flow's items as arguments,
      `fill(value)` and `__call__(value)` one argument, `compute()`,
      `request()`, `reset()` and a source's `__call__()` none, and
      `fill_into(element, value)` gets the value and returns the list of
      values it fills into the element. */
  type Method = (Val, seq<Val>) -> Result<(Val, Val)>

  /** The states of all stateful user elements, by object identity. */
  type Store = map<nat, Val>

  function StateOf(st: Store, id: nat): Val
  {
    if id in st then st[id] else VNone
  }

  /** How `Run` obtained its `run` method. */
  datatype RunMode =
    | RunMethod(name: string)   // the element's (possibly renamed) run method
    | CallEach                  // a callable: one call per value
    | FillComputeAll            // fill with every value, then compute
    | Given(f: Method)          // `Run(None, run=f)`
    | NotCallable               // `Run(None, run="name")`: a string stored as run

  /** How `FillInto` fills its target. */
  datatype IntoMode =
    | IntoMethod(name: string)  // the element's fill_into method
    | IntoCall                  // `element.fill(el(value))`
    | IntoRun                   // `element.fill(r)` for every r in `el.run([value])`

  /** The branch kinds of `Split`. */
  datatype SeqType = SourceType | FillComputeType | FillRequestType | SequenceType

  /** A Python object where the library expects an element. Every object
      that is not plain data carries its identity `id`. */
  datatype Element =
    | Data(v: Val)                               // plain data (not an element)
    | Tuple(els: seq<Element>)                   // a tuple of elements
    | List(els: seq<Element>)                    // a list of elements
    | User(id: nat, methods: map<string, Method>)
    | Run(id: nat, el: Element, mode: RunMode)
    | Call(id: nat, el: Element, name: string)
    | SourceEl(id: nat, el: Element, name: string)
    | FillCompute(id: nat, el: Element, fill: string, compute: string)
    | FillInto(id: nat, el: Element, into: IntoMode)
    | FillRequest(id: nat, el: Element, fill: string, request: Option<string>, bufsize: nat, ownRun: bool)
    | Sequence(id: nat, els: seq<Element>)
    | Source(id: nat, args: seq<Element>, tail: Option<Element>)
    | FillSeq(id: nat, args: seq<Element>, chain: seq<Element>)
    | FillComputeSeq(id: nat, args: seq<Element>, before: Element, fc: Element, after: Element)
    | Split(id: nat, seqs: seq<Element>, types: seq<SeqType>, buffer: Val, copyBuf: bool)

  function Size(e: Element): (n: nat)
    ensures n >= 1
  {
    match e
    case Data(_) => 1
    case Tuple(els) => 1 + SizeAll(els)
    case List(els) => 1 + SizeAll(els)
    case User(_, _) => 1
    case Run(_, el, _) => 1 + Size(el)
    case Call(_, el, _) => 1 + Size(el)
    case SourceEl(_, el, _) => 1 + Size(el)
    case FillCompute(_, el, _, _) => 1 + Size(el)
    case FillInto(_, el, _) => 1 + Size(el)
    case FillRequest(_, el, _, _, _, _) => 1 + Size(el)
    case Sequence(_, els) => 1 + SizeAll(els)
    case Source(_, args, tail) => 1 + SizeAll(args) + (if tail.Some? then Size(tail.value) else 0)
    case FillSeq(_, args, chain) => 1 + SizeAll(args) + SizeAll(chain)
    case FillComputeSeq(_, args, before, fc, after) => 1 + SizeAll(args) + Size(before) + Size(fc) + Size(after)
    case Split(_, seqs, _, _, _) => 1 + SizeAll(seqs)
  }

  function SizeAll(els: seq<Element>): nat
  {
    if |els| == 0 then 0 else Size(els[0]) + SizeAll(els[1..])
  }

  lemma {:induction false} SizeAllMember(els: seq<Element>, i: int)
    requires 0 <= i < |els|
    ensures Size(els[i]) <= SizeAll(els)
    decreases |els|
  {
    if i > 0 {
      SizeAllMember(els[1..], i - 1);
    }
  }

  /** Whether every branch type of a `Split` is *t*. */
  predicate AllOfType(types: seq<SeqType>, t: SeqType)
  {
    |types| > 0 && forall i :: 0 <= i < |types| ==> types[i] == t
  }

  /** `callable(getattr(e, name, None))`. */
  predicate HasMethod(e: Element, name: string)
  {
    match e
    case Data(_) => false
    case Tuple(_) => false
    case List(_) => false
    case User(_, ms) => name in ms
    case Run(_, _, _) => name == "run"
    case Call(_, _, _) => name == "__call__"
    case SourceEl(_, _, _) => name == "__call__"
    case FillCompute(_, _, _, _) => name == "fill" || name == "compute"
    case FillInto(_, _, _) => name == "fill_into"
    case FillRequest(_, _, _, _, _, _) => name == "fill" || name == "request" || name == "run"
    case Sequence(_, _) => name == "run"
    case Source(_, _, _) => name == "__call__"
    case FillSeq(_, _, _) => name == "fill"
    case FillComputeSeq(_, _, _, _, _) => name == "fill" || name == "compute"
    case Split(_, _, types, _, _) =>
      name == "run" || name == "__call__"
      || ((name == "fill" || name == "compute") && AllOfType(types, FillComputeType))
      || ((name == "fill" || name == "request") && AllOfType(types, FillRequestType))
  }

  /** `callable(e)`. */
  predicate Callable(e: Element)
  {
    HasMethod(e, "__call__")
  }

  /** A sequence of lena/core (a `LenaSequence`). */
  predicate IsLenaSequence(e: Element)
  {
    e.Sequence? || e.Source? || e.FillSeq? || e.FillComputeSeq?
  }

  /** `hasattr(e, "__iter__")`. */
  predicate HasIter(e: Element)
  {
    match e
    case Data(v) => v.VList? || v.VTuple? || v.VStr? || v.VDict?
    case Tuple(_) => true
    case List(_) => true
    case User(_, ms) => "__iter__" in ms
    case _ => IsLenaSequence(e)
  }

  /** The elements that iterating *e* yields, when these are elements (a
      tuple or list of elements, or a `LenaSequence`, which iterates over
      the elements it stores). */
  function Members(e: Element): (r: Option<seq<Element>>)
    ensures r.Some? ==> HasIter(e)
  {
    match e
    case Tuple(els) => Some(els)
    case List(els) => Some(els)
    case Sequence(_, els) => Some(els)
    case Source(_, args, _) => Some(args)
    case FillSeq(_, _, chain) => Some(chain)
    case FillComputeSeq(_, args, _, _, _) => Some(args)
    case _ => None
  }

  lemma MembersSmaller(e: Element, i: int)
    requires Members(e).Some? && 0 <= i < |Members(e).value|
    ensures Size(Members(e).value[i]) < Size(e)
  {
    SizeAllMember(Members(e).value, i);
  }

  // ------------------------------------------------------------------
  // check_sequence_type

  /** `is_fill_compute_el(obj)`. */
  predicate IsFillComputeEl(e: Element)
  {
    HasMethod(e, "fill") && HasMethod(e, "compute")
  }

  /** `is_fill_request_el(obj)`. */
  predicate IsFillRequestEl(e: Element)
  {
    HasMethod(e, "fill") && HasMethod(e, "request")
  }

  /** `is_run_el(obj)`. */
  predicate IsRunEl(e: Element)
  {
    HasMethod(e, "run")
  }

  /** `is_source(seq)`. */
  predicate IsSource(e: Element)
  {
    e.Source?
  }

  /** Some member is a FillCompute element (`any(map(is_fill_compute_el,
      seq))`; iterating plain data never yields an element). */
  predicate AnyFillComputeEl(els: seq<Element>)
  {
    exists i :: 0 <= i < |els| && IsFillComputeEl(els[i])
  }

  predicate AnyFillRequestEl(els: seq<Element>)
  {
    exists i :: 0 <= i < |els| && IsFillRequestEl(els[i])
  }

  /** `is_fill_compute_seq(seq)`. */
  predicate IsFillComputeSeq(e: Element)
  {
    !IsSource(e) && (IsFillComputeEl(e) || (Members(e).Some? && AnyFillComputeEl(Members(e).value)))
  }

  /** `is_fill_request_seq(seq)`. */
  predicate IsFillRequestSeq(e: Element)
  {
    !IsSource(e) && (IsFillRequestEl(e) || (Members(e).Some? && AnyFillRequestEl(Members(e).value)))
  }

  // ------------------------------------------------------------------
  // The container view of a LenaSequence

  /** `len(seq)`. */
  function Len(e: Element): (n: nat)
    requires IsLenaSequence(e)
  {
    |Members(e).value|
  }

  /** `seq[ind]`, with Python's negative indices. */
  function GetItem(e: Element, ind: int): (r: Result<Element>)
    requires IsLenaSequence(e)
    ensures 0 <= ind < Len(e) ==> r == Success(Members(e).value[ind])
    ensures 0 - Len(e) <= ind < 0 ==> r == Success(Members(e).value[Len(e) + ind])
    ensures r.Failure? <==> ind < 0 - Len(e) || Len(e) <= ind
    ensures r.Failure? ==> r.error == PyIndexError
  {
    var els := Members(e).value;
    if 0 <= ind < |els| then Success(els[ind])
    else if -|els| <= ind < 0 then Success(els[|els| + ind])
    else Failure(PyIndexError)
  }

  /** `len(seq)` bounds the indices `seq[ind]` accepts: exactly those from
      `-len(seq)` up to `len(seq) - 1`. */
  lemma LenIndices(e: Element)
    requires IsLenaSequence(e)
    ensures forall i: int :: GetItem(e, i).Success? <==> -(Len(e) as int) <= i < Len(e)
  {
  }

  /** `seq[ind] = x` and `del seq[ind]`: a LenaSequence defines neither. */
  function SetItem(e: Element, ind: int, x: Element): (r: Result<Element>)
    requires IsLenaSequence(e)
    ensures r == Failure(PyTypeError)
  {
    Failure(PyTypeError)
  }

  function DelItem(e: Element, ind: int): (r: Result<Element>)
    requires IsLenaSequence(e)
    ensures r == Failure(PyTypeError)
  {
    Failure(PyTypeError)
  }

  // ------------------------------------------------------------------
  // Equality

  /** Python `a == b` on elements: the sequences of lena/core compare their
      stored elements (each class only with itself), tuples and lists
      compare item by item, plain data by value; every other object is
      equal only to itself. */
  predicate Same(a: Element, b: Element)
  {
    match a
    case Data(v) => b.Data? && b.v == v
    case Tuple(xs) => b.Tuple? && AllSame(xs, b.els)
    case List(xs) => b.List? && AllSame(xs, b.els)
    case Sequence(_, xs) => b.Sequence? && AllSame(xs, b.els)
    case Source(_, xs, _) => b.Source? && AllSame(xs, b.args)
    case FillSeq(_, _, xs) => b.FillSeq? && AllSame(xs, b.chain)
    case FillComputeSeq(_, xs, _, _, _) => b.FillComputeSeq? && AllSame(xs, b.args)
    case User(id, _) => b.User? && b.id == id
    case Run(id, _, _) => b.Run? && b.id == id
    case Call(id, _, _) => b.Call? && b.id == id
    case SourceEl(id, _, _) => b.SourceEl? && b.id == id
    case FillCompute(id, _, _, _) => b.FillCompute? && b.id == id
    case FillInto(id, _, _) => b.FillInto? && b.id == id
    case FillRequest(id, _, _, _, _, _) => b.FillRequest? && b.id == id
    case Split(id, _, _, _, _) => b.Split? && b.id == id
  }

  /** List equality: equal lengths and equal items in order. */
  predicate AllSame(xs: seq<Element>, ys: seq<Element>)
  {
    |xs| == |ys| && forall i :: 0 <= i < |xs| ==> Same(xs[i], ys[i])
  }

  lemma {:induction false} SameRefl(a: Element)
    ensures Same(a, a)
  {
    match a
    case Tuple(xs) => AllSameRefl(xs);
    case List(xs) => AllSameRefl(xs);
    case Sequence(_, xs) => AllSameRefl(xs);
    case Source(_, xs, _) => AllSameRefl(xs);
    case FillSeq(_, _, xs) => AllSameRefl(xs);
    case FillComputeSeq(_, xs, _, _, _) => AllSameRefl(xs);
    case _ =>
  }

  lemma {:induction false} AllSameRefl(xs: seq<Element>)
    ensures AllSame(xs, xs)
  {
    forall i | 0 <= i < |xs| ensures Same(xs[i], xs[i]) {
      SameRefl(xs[i]);
    }
  }
}
