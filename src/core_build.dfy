// Building elements and sequences: the initializers of the adapters
// (lena/core/adapters.py), Sequence (lena/core/sequence.py), Source
// (lena/core/source.py), FillSeq (lena/core/fill_seq.py), FillComputeSeq
// (lena/core/fill_compute_seq.py) and Split (lena/core/split.py).
// Objects created along the way get fresh identities: a constructor takes
// the first free identity and returns the next free one.

module CoreBuild {
  import opened Wrappers
  import opened Values
  import opened CoreElements
  import opened CoreMeta

  // ------------------------------------------------------------------
  // Adapters

  /** The *run* argument of `Run`: absent, a method name, or a function
      (to be used with no element). */
  datatype RunArg = NoRun | RunName(name: string) | RunFunction(f: Method)

  /** `el is None`. */
  predicate IsNone(el: Element)
  {
    el == Data(VNone)
  }

  /** `Run(el, run)`: without a name, a `run` method beats a callable,
      which beats a FillCompute element. */
  function MakeRun(el: Element, run: RunArg, id: nat): (r: Result<Element>)
    ensures r.Success? ==> r.value.Run? && r.value.id == id && r.value.el == el && IsRunEl(r.value)
    ensures r.Failure? ==> r.error == (if run.RunFunction? then PyTypeError else LenaTypeError)
    ensures run.NoRun? ==> (r.Success? <==> IsRunEl(el) || Callable(el) || IsFillComputeEl(el))
    ensures run.NoRun? && IsRunEl(el) ==> r.value.mode == RunMethod("run")
    ensures run.NoRun? && !IsRunEl(el) && Callable(el) ==> r.value.mode == CallEach
    ensures run.NoRun? && !IsRunEl(el) && !Callable(el) && IsFillComputeEl(el) ==> r.value.mode == FillComputeAll
    ensures run.RunName? ==> (r.Success? <==> IsNone(el) || HasMethod(el, run.name))
    ensures run.RunName? && !IsNone(el) && r.Success? ==> r.value.mode == RunMethod(run.name)
    ensures run.RunFunction? ==> (r.Success? <==> IsNone(el)) && (r.Success? ==> r.value.mode == Given(run.f))
  {
    match run
    case NoRun =>
      if IsRunEl(el) then Success(Run(id, el, RunMethod("run")))
      else if Callable(el) then Success(Run(id, el, CallEach))
      else if IsFillComputeEl(el) then Success(Run(id, el, FillComputeAll))
      else Failure(LenaTypeError)
    case RunName(n) =>
      if IsNone(el) then Success(Run(id, el, NotCallable))
      else if HasMethod(el, n) then Success(Run(id, el, RunMethod(n)))
      else Failure(LenaTypeError)
    case RunFunction(f) =>
      if IsNone(el) then Success(Run(id, el, Given(f)))
      else Failure(PyTypeError)
  }

  /** `_init_callable(el, call)`: the name of the method to call. */
  function InitCallable(el: Element, call: Option<string>): (r: Result<string>)
    ensures call.None? ==> (r.Success? <==> Callable(el))
    ensures call.Some? ==> (r.Success? <==> HasMethod(el, call.value))
    ensures r.Success? ==> HasMethod(el, r.value)
    ensures r.Failure? ==> r.error == LenaTypeError
  {
    match call
    case None => if Callable(el) then Success("__call__") else Failure(LenaTypeError)
    case Some(n) => if HasMethod(el, n) then Success(n) else Failure(LenaTypeError)
  }

  /** `Call(el, call)`. */
  function MakeCall(el: Element, call: Option<string>, id: nat): (r: Result<Element>)
    ensures r.Success? <==> InitCallable(el, call).Success?
    ensures r.Success? ==> Callable(r.value) && r.value == Call(id, el, InitCallable(el, call).value)
    ensures r.Failure? ==> r.error == LenaTypeError
  {
    var name :- InitCallable(el, call);
    Success(Call(id, el, name))
  }

  /** `SourceEl(el, call)`. */
  function MakeSourceEl(el: Element, call: Option<string>, id: nat): (r: Result<Element>)
    ensures r.Success? <==> InitCallable(el, call).Success?
    ensures r.Success? ==> Callable(r.value) && r.value == SourceEl(id, el, InitCallable(el, call).value)
    ensures r.Failure? ==> r.error == LenaTypeError
  {
    var name :- InitCallable(el, call);
    Success(SourceEl(id, el, name))
  }

  /** `FillCompute(el, fill, compute)`. */
  function MakeFillCompute(el: Element, fill: string, compute: string, id: nat): (r: Result<Element>)
    ensures r.Success? <==> HasMethod(el, fill) && HasMethod(el, compute)
    ensures r.Success? ==> IsFillComputeEl(r.value) && r.value == FillCompute(id, el, fill, compute)
    ensures r.Failure? ==> r.error == LenaTypeError
  {
    if !HasMethod(el, fill) || !HasMethod(el, compute) then Failure(LenaTypeError)
    else Success(FillCompute(id, el, fill, compute))
  }

  /** `FillInto(el, fill_into, explicit)`: without a name, the element's
      `fill_into`, then its call, then (only if *explicit*) its `run`. */
  function MakeFillInto(el: Element, into: Option<string>, explicit: bool, id: nat): (r: Result<Element>)
    ensures into.None? ==> (r.Success? <==> HasMethod(el, "fill_into") || Callable(el) || (IsRunEl(el) && explicit))
    ensures into.Some? ==> (r.Success? <==> HasMethod(el, into.value))
    ensures r.Success? ==> HasMethod(r.value, "fill_into") && r.value.FillInto? && r.value.el == el
    ensures into.None? && !HasMethod(el, "fill_into") && Callable(el) ==> r.value.into == IntoCall
    ensures r.Failure? ==> r.error == LenaTypeError
  {
    match into
    case None =>
      if HasMethod(el, "fill_into") then Success(FillInto(id, el, IntoMethod("fill_into")))
      else if Callable(el) then Success(FillInto(id, el, IntoCall))
      else if IsRunEl(el) && explicit then Success(FillInto(id, el, IntoRun))
      else Failure(LenaTypeError)
    case Some(n) =>
      if HasMethod(el, n) then Success(FillInto(id, el, IntoMethod(n)))
      else Failure(LenaTypeError)
  }

  /** The ASCII whitespace that `int()` skips around a literal. */
  predicate IsSpace(c: char)
  {
    c == ' ' || c == '\t' || c == '\n' || c == '\r' || c == '\U{B}' || c == '\U{C}'
  }

  /** `s` without its leading whitespace. */
  function TrimStart(s: string): (r: string)
    ensures |r| <= |s| && r == s[|s| - |r|..]
    ensures forall i :: 0 <= i < |s| - |r| ==> IsSpace(s[i])
    ensures |r| > 0 ==> !IsSpace(r[0])
  {
    if |s| > 0 && IsSpace(s[0]) then TrimStart(s[1..]) else s
  }

  /** `s` without its trailing whitespace. */
  function TrimEnd(s: string): (r: string)
    ensures |r| <= |s| && r == s[..|r|]
    ensures forall i :: |r| <= i < |s| ==> IsSpace(s[i])
    ensures |r| > 0 ==> !IsSpace(r[|r| - 1])
  {
    if |s| > 0 && IsSpace(s[|s| - 1]) then TrimEnd(s[..|s| - 1]) else s
  }

  predicate IsDigit(c: char)
  {
    '0' <= c <= '9'
  }

  /** Decimal digits, with single underscores allowed between two digits. */
  predicate IsDigitGroups(d: string)
  {
    |d| > 0 && IsDigit(d[0]) && IsDigit(d[|d| - 1])
    && (forall i :: 0 <= i < |d| ==> IsDigit(d[i]) || d[i] == '_')
    && (forall i :: 0 <= i < |d| - 1 && d[i] == '_' ==> d[i + 1] != '_')
  }

  /** A string that `int()` accepts: surrounding whitespace, an optional
      sign and decimal digit groups. */
  predicate IsIntLiteral(s: string)
  {
    var t := TrimEnd(TrimStart(s));
    var digits := if |t| > 0 && (t[0] == '+' || t[0] == '-') then t[1..] else t;
    IsDigitGroups(digits)
  }

  /** `int()` strips the whitespace around `" 5"`. */
  lemma SpacedLiteral()
    ensures TrimStart(" 5") == "5" && TrimEnd("5") == "5"
    ensures IsIntLiteral(" 5")
  {
    assert " 5"[0] == ' ' && " 5"[1..] == "5";
    assert "5"[0] == '5';
  }

  /** `"-1_0\n"` has no leading whitespace ... */
  lemma NoLeadingSpace()
    ensures TrimStart("-1_0\n") == "-1_0\n"
  {
    assert "-1_0\n"[0] == '-';
  }

  /** ... and its trailing newline is stripped. */
  lemma TrimNewline()
    ensures TrimEnd("-1_0\n") == "-1_0"
  {
    var s := "-1_0\n";
    assert s[4] == '\n' && s[..4] == "-1_0";
    assert "-1_0"[3] == '0';
  }

  /** `int()` accepts the signed digit groups `"-1_0"`. */
  lemma GroupedLiteral()
    ensures IsIntLiteral("-1_0\n")
  {
    NoLeadingSpace();
    TrimNewline();
    assert "-1_0"[0] == '-' && "-1_0"[1..] == "1_0";
    assert "1_0"[0] == '1' && "1_0"[1] == '_' && "1_0"[2] == '0';
  }

  /** A doubled underscore is refused. */
  lemma DoubledUnderscore()
    ensures TrimStart("1__0") == "1__0" && TrimEnd("1__0") == "1__0"
    ensures !IsIntLiteral("1__0")
  {
    assert "1__0"[0] == '1' && "1__0"[3] == '0';
    assert "1__0"[1] == '_' && "1__0"[2] == '_';
  }

  /** A leading underscore and a blank string are refused. */
  lemma MalformedLiterals()
    ensures !IsIntLiteral("_1") && !IsIntLiteral(" ")
  {
    assert "_1"[0] == '_' && "_1"[1] == '1';
    assert TrimStart("_1") == "_1";
    assert TrimEnd("_1") == "_1";
    assert " "[0] == ' ' && " "[1..] == "";
    assert TrimStart(" ") == "";
    assert TrimEnd("") == "";
  }

  /** `int(" 5")` and `int("-1_0\n")` succeed, so such a buffer size is a
      string unequal to its integer value (LenaValueError), while
      `int("1__0")`, `int("_1")` and `int(" ")` fail themselves
      (ValueError). */
  lemma IntLiteralExamples()
    ensures NaturalNumber(VStr(" 5")) == Failure(LenaValueError)
    ensures NaturalNumber(VStr("-1_0\n")) == Failure(LenaValueError)
    ensures NaturalNumber(VStr("1__0")) == Failure(PyValueError)
    ensures NaturalNumber(VStr("_1")) == Failure(PyValueError)
    ensures NaturalNumber(VStr(" ")) == Failure(PyValueError)
  {
    SpacedLiteral();
    GroupedLiteral();
    DoubledUnderscore();
    MalformedLiterals();
  }

  /** The check `bufsize != int(bufsize) or bufsize < 1`, giving
      `int(bufsize)`. */
  function NaturalNumber(v: Val): (r: Result<nat>)
    ensures r.Success? ==> r.value >= 1
    ensures v.VInt? ==> (r.Success? <==> v.i >= 1) && (r.Success? ==> r.value == v.i)
    ensures v.VReal? ==> (r.Success? <==> v.r >= 1.0 && v.r == v.r.Floor as real)
    ensures v.VReal? && r.Success? ==> r.value as real == v.r
    ensures v.VBool? ==> (r.Success? <==> v.b)
    ensures r.Failure? && (v.VInt? || v.VReal? || v.VBool?) ==> r.error == LenaValueError
    ensures r.Failure? && (v.VNone? || v.VList? || v.VTuple? || v.VDict?) ==> r.error == PyTypeError
    ensures v.VStr? ==> r.Failure? && (r.error == LenaValueError <==> IsIntLiteral(v.s))
  {
    match v
    case VInt(i) => if i >= 1 then Success(i) else Failure(LenaValueError)
    case VBool(b) => if b then Success(1) else Failure(LenaValueError)
    case VReal(x) => if x >= 1.0 && x == x.Floor as real then Success(x.Floor) else Failure(LenaValueError)
    case VStr(s) => if IsIntLiteral(s) then Failure(LenaValueError) else Failure(PyValueError)
    case _ => Failure(PyTypeError)
  }

  /** `FillRequest(el, fill, request, bufsize)`: `request` falls back to
      `compute` followed by `reset`; an own `run` method is kept. */
  function MakeFillRequest(el: Element, fill: string, request: string, bufsize: Val, id: nat): (r: Result<Element>)
    ensures r.Success? <==> HasMethod(el, fill)
                            && (HasMethod(el, request) || (HasMethod(el, "compute") && HasMethod(el, "reset")))
                            && NaturalNumber(bufsize).Success?
    ensures !HasMethod(el, fill) ==> r == Failure(LenaTypeError)
    ensures HasMethod(el, fill) && !HasMethod(el, request) && !(HasMethod(el, "compute") && HasMethod(el, "reset"))
            ==> r == Failure(LenaTypeError)
    ensures r.Success? ==> IsFillRequestEl(r.value) && r.value.FillRequest? && r.value.el == el
    ensures r.Success? ==> r.value.bufsize == NaturalNumber(bufsize).value && r.value.bufsize >= 1
    ensures r.Success? ==> (r.value.request.None? <==> !HasMethod(el, request))
    ensures r.Success? ==> (r.value.ownRun <==> IsRunEl(el))
  {
    if !HasMethod(el, fill) then Failure(LenaTypeError)
    else if !HasMethod(el, request) && !(HasMethod(el, "compute") && HasMethod(el, "reset")) then Failure(LenaTypeError)
    else
      var b :- NaturalNumber(bufsize);
      var rq := if HasMethod(el, request) then Some(request) else None;
      Success(FillRequest(id, el, fill, rq, b, IsRunEl(el)))
  }

  // ------------------------------------------------------------------
  // Sequence

  /** A single tuple argument stands for its items. */
  function SequenceArgs(args: seq<Element>): seq<Element>
  {
    if |args| == 1 && args[0].Tuple? then args[0].els else args
  }

  /** Keep what has a `run` method, wrap everything else in `Run`. */
  function WrapRuns(els: seq<Element>, nextId: nat): (r: Result<(seq<Element>, nat)>)
    ensures r.Failure? ==> r.error == LenaTypeError
    ensures r.Success? ==> r.value.1 >= nextId
  {
    if |els| == 0 then Success(([], nextId))
    else
      var (first, next) :- WrapOne(els[0], nextId);
      var (rest, last) :- WrapRuns(els[1..], next);
      Success(([first] + rest, last))
  }

  /** Wrapping fails exactly when some element has no `run` method, is not
      callable and is not a FillCompute element; otherwise every position
      holds the element itself or its `Run` wrapper. */
  lemma {:induction false} WrapRunsSpec(els: seq<Element>, nextId: nat)
    ensures WrapRuns(els, nextId).Success? <==>
            forall i :: 0 <= i < |els| ==> IsRunEl(els[i]) || Callable(els[i]) || IsFillComputeEl(els[i])
    ensures WrapRuns(els, nextId).Success? ==> var ws := WrapRuns(els, nextId).value.0;
              |ws| == |els|
              && forall i :: 0 <= i < |els| ==>
                   IsRunEl(ws[i])
                   && (IsRunEl(els[i]) ==> ws[i] == els[i])
                   && (!IsRunEl(els[i]) ==> ws[i] == MakeRun(els[i], NoRun, ws[i].id).value)
  {
    if |els| > 0 {
      assert forall i :: 1 <= i < |els| ==> els[i] == els[1..][i - 1];
      var w := WrapOne(els[0], nextId);
      if w.Success? {
        WrapRunsSpec(els[1..], w.value.1);
      }
    }
  }

  function WrapOne(el: Element, nextId: nat): (r: Result<(Element, nat)>)
    ensures r.Success? <==> IsRunEl(el) || Callable(el) || IsFillComputeEl(el)
    ensures r.Failure? ==> r.error == LenaTypeError
    ensures r.Success? ==> r.value.1 >= nextId && IsRunEl(r.value.0)
    ensures r.Success? && IsRunEl(el) ==> r.value == (el, nextId)
    ensures r.Success? && !IsRunEl(el) ==> r.value == (MakeRun(el, NoRun, nextId).value, nextId + 1)
  {
    if IsRunEl(el) then Success((el, nextId))
    else
      var w :- MakeRun(el, NoRun, nextId);
      Success((w, nextId + 1))
  }

  /** `Sequence(*args)`. */
  function MakeSequence(args: seq<Element>, nextId: nat): (r: Result<(Element, nat)>)
    ensures r.Success? <==> forall i :: 0 <= i < |SequenceArgs(args)| ==> var x := SequenceArgs(args)[i];
                                         IsRunEl(x) || Callable(x) || IsFillComputeEl(x)
    ensures r.Success? ==> r.value.0.Sequence? && r.value.0.id == nextId && r.value.1 > nextId
    ensures r.Success? ==> |r.value.0.els| == |SequenceArgs(args)|
    ensures r.Failure? ==> r.error == LenaTypeError
  {
    WrapRunsSpec(SequenceArgs(args), nextId + 1);
    var (els, next) :- WrapRuns(SequenceArgs(args), nextId + 1);
    Success((Sequence(nextId, els), next))
  }

  /** Put *prefix* in front of the list in *r*. */
  function Prepend(prefix: seq<Element>, r: Result<(seq<Element>, nat)>): Result<(seq<Element>, nat)>
  {
    match r
    case Success((xs, n)) => Success((prefix + xs, n))
    case Failure(e) => Failure(e)
  }

  lemma PrependNothing(r: Result<(seq<Element>, nat)>)
    ensures Prepend([], r) == r
  {
    if r.Success? {
      assert [] + r.value.0 == r.value.0;
    }
  }

  lemma PrependTwice(a: seq<Element>, b: seq<Element>, r: Result<(seq<Element>, nat)>)
    ensures Prepend(a, Prepend(b, r)) == Prepend(a + b, r)
  {
    if r.Success? {
      assert a + (b + r.value.0) == (a + b) + r.value.0;
    }
  }

  lemma WrapRunsStep(els: seq<Element>, i: int, nextId: nat)
    requires 0 <= i < |els|
    ensures WrapRuns(els[i..], nextId) ==
            match WrapOne(els[i], nextId)
            case Failure(e) => Failure(e)
            case Success((w, next)) => Prepend([w], WrapRuns(els[i + 1..], next))
  {
    assert els[i..][1..] == els[i + 1..];
  }

  /** `Sequence.__init__`: the loop appending kept or wrapped elements. */
  method NewSequence(args: seq<Element>, nextId: nat) returns (r: Result<(Element, nat)>)
    ensures r == MakeSequence(args, nextId)
  {
    var els := SequenceArgs(args);
    var stored: seq<Element> := [];
    var next: nat := nextId + 1;
    var i := 0;
    assert els[i..] == els;
    PrependNothing(WrapRuns(els, next));
    while i < |els|
      invariant 0 <= i <= |els|
      invariant WrapRuns(els, nextId + 1) == Prepend(stored, WrapRuns(els[i..], next))
    {
      WrapRunsStep(els, i, next);
      var el := els[i];
      if IsRunEl(el) {
        PrependTwice(stored, [el], WrapRuns(els[i + 1..], next));
        stored := stored + [el];
      } else {
        var w := MakeRun(el, NoRun, next);
        if w.Failure? {
          return Failure(LenaTypeError);
        }
        PrependTwice(stored, [w.value], WrapRuns(els[i + 1..], next + 1));
        stored := stored + [w.value];
        next := next + 1;
      }
      i := i + 1;
    }
    assert els[i..] == [];
    assert stored + [] == stored;
    return Success((Sequence(nextId, stored), next));
  }

  // ------------------------------------------------------------------
  // The initializer the sequences of lena/core rely on

  /** `object.__init__(self, *args)`: any argument is a TypeError. */
  function ObjectInit(args: seq<Element>): (r: Result<()>)
    ensures r.Success? <==> |args| == 0
    ensures r.Failure? ==> r.error == PyTypeError
  {
    if |args| == 0 then Success(()) else Failure(PyTypeError)
  }

  // ------------------------------------------------------------------
  // Source

  /** `Source(*args)`: a callable or iterable head and an optional tail
      `Sequence(*args[1:])`.
      This is the corrected behaviour; the program as written is `MakeSourceAsWritten`. */
  function MakeSource(args: seq<Element>, nextId: nat): (r: Result<(Element, nat)>)
    ensures r.Success? <==> |args| > 0 && (Callable(args[0]) || HasIter(args[0]))
                            && (|args| > 1 ==> MakeSequence(args[1..], nextId + 1).Success?)
    ensures r.Failure? ==> r.error == LenaTypeError
    ensures r.Success? ==> r.value.0.Source? && r.value.0.id == nextId && r.value.0.args == args
    ensures r.Success? ==> (r.value.0.tail.Some? <==> |args| > 1)
    ensures r.Success? && |args| > 1 ==> r.value.0.tail.value == MakeSequence(args[1..], nextId + 1).value.0
  {
    if |args| == 0 then Failure(LenaTypeError)
    else if !(Callable(args[0]) || HasIter(args[0])) then Failure(LenaTypeError)
    else if |args| == 1 then Success((Source(nextId, args, None), nextId + 1))
    else
      var (tail, next) :- MakeSequence(args[1..], nextId + 1);
      Success((Source(nextId, args, Some(tail)), next))
  }

  /** `Source(*args)` as written: the call to the base initializer comes
      before reading the stored arguments. */
  function MakeSourceAsWritten(args: seq<Element>, nextId: nat): (r: Result<(Element, nat)>)
    ensures r.Failure?
    ensures r.error == (if |args| == 0 then LenaTypeError else PyTypeError)
  {
    if |args| == 0 then Failure(LenaTypeError)
    else
      match ObjectInit(args)
      case Failure(e) => Failure(e)
      case Success(_) => MakeSource(args, nextId)
  }

  // ------------------------------------------------------------------
  // FillSeq

  /** Convert an element that is not the last one of a `FillSeq`. */
  function IntoOne(el: Element, nextId: nat): (r: Result<(Element, nat)>)
    ensures r.Success? <==> HasMethod(el, "fill_into") || Callable(el)
    ensures r.Failure? ==> r.error == LenaTypeError
    ensures r.Success? ==> r.value.1 >= nextId && HasMethod(r.value.0, "fill_into")
    ensures r.Success? && HasMethod(el, "fill_into") ==> r.value == (el, nextId)
    ensures r.Success? && !HasMethod(el, "fill_into") ==> r.value == (FillInto(nextId, el, IntoCall), nextId + 1)
  {
    if HasMethod(el, "fill_into") then Success((el, nextId))
    else
      var w :- MakeFillInto(el, None, false, nextId);
      Success((w, nextId + 1))
  }

  function IntoChain(els: seq<Element>, nextId: nat): (r: Result<(seq<Element>, nat)>)
    ensures r.Failure? ==> r.error == LenaTypeError
    ensures r.Success? ==> r.value.1 >= nextId
  {
    if |els| == 0 then Success(([], nextId))
    else
      var (first, next) :- IntoOne(els[0], nextId);
      var (rest, last) :- IntoChain(els[1..], next);
      Success(([first] + rest, last))
  }

  /** Converting fails exactly when some element has no `fill_into` method
      and is not callable; otherwise every position holds the element
      itself or its `FillInto` wrapper. */
  lemma {:induction false} IntoChainSpec(els: seq<Element>, nextId: nat)
    ensures IntoChain(els, nextId).Success? <==>
            forall i :: 0 <= i < |els| ==> HasMethod(els[i], "fill_into") || Callable(els[i])
    ensures IntoChain(els, nextId).Success? ==> var cs := IntoChain(els, nextId).value.0;
              |cs| == |els|
              && forall i :: 0 <= i < |els| ==>
                   HasMethod(cs[i], "fill_into")
                   && (HasMethod(els[i], "fill_into") ==> cs[i] == els[i])
                   && (!HasMethod(els[i], "fill_into") ==> cs[i] == FillInto(cs[i].id, els[i], IntoCall))
  {
    if |els| > 0 {
      assert forall i :: 1 <= i < |els| ==> els[i] == els[1..][i - 1];
      var w := IntoOne(els[0], nextId);
      if w.Success? {
        IntoChainSpec(els[1..], w.value.1);
      }
    }
  }

  /** `FillSeq(*args)`: the last argument is filled, the others fill
      into the rest of the chain.
      This is the corrected behaviour; the program as written is `MakeFillSeqAsWritten`. */
  function MakeFillSeq(args: seq<Element>, nextId: nat): (r: Result<(Element, nat)>)
    ensures r.Success? <==> |args| > 0 && HasMethod(args[|args| - 1], "fill")
                            && forall i :: 0 <= i < |args| - 1 ==> HasMethod(args[i], "fill_into") || Callable(args[i])
    ensures r.Failure? ==> r.error == LenaTypeError
    ensures r.Success? ==> var e := r.value.0;
              e.FillSeq? && e.id == nextId && e.args == args && |e.chain| == |args|
              && e.chain[|args| - 1] == args[|args| - 1]
              && (forall i :: 0 <= i < |args| - 1 ==> HasMethod(e.chain[i], "fill_into"))
  {
    if |args| == 0 then Failure(LenaTypeError)
    else if !HasMethod(args[|args| - 1], "fill") then Failure(LenaTypeError)
    else
      IntoChainSpec(args[..|args| - 1], nextId + 1);
      var (chain, next) :- IntoChain(args[..|args| - 1], nextId + 1);
      Success((FillSeq(nextId, args, chain + [args[|args| - 1]]), next))
  }

  lemma IntoChainStep(els: seq<Element>, i: int, nextId: nat)
    requires 0 <= i < |els|
    ensures IntoChain(els[i..], nextId) ==
            match IntoOne(els[i], nextId)
            case Failure(e) => Failure(e)
            case Success((w, next)) => Prepend([w], IntoChain(els[i + 1..], next))
  {
    assert els[i..][1..] == els[i + 1..];
  }

  /** `FillSeq.__init__`: the loop converting all but the last argument. */
  method NewFillSeq(args: seq<Element>, nextId: nat) returns (r: Result<(Element, nat)>)
    ensures r == MakeFillSeq(args, nextId)
  {
    if |args| == 0 {
      return Failure(LenaTypeError);
    }
    var last := args[|args| - 1];
    if !HasMethod(last, "fill") {
      return Failure(LenaTypeError);
    }
    var init := args[..|args| - 1];
    var chain: seq<Element> := [];
    var next: nat := nextId + 1;
    var i := 0;
    assert init[i..] == init;
    PrependNothing(IntoChain(init, next));
    while i < |init|
      invariant 0 <= i <= |init|
      invariant IntoChain(init, nextId + 1) == Prepend(chain, IntoChain(init[i..], next))
    {
      IntoChainStep(init, i, next);
      var el := init[i];
      if HasMethod(el, "fill_into") {
        PrependTwice(chain, [el], IntoChain(init[i + 1..], next));
        chain := chain + [el];
      } else if Callable(el) {
        PrependTwice(chain, [FillInto(next, el, IntoCall)], IntoChain(init[i + 1..], next + 1));
        chain := chain + [FillInto(next, el, IntoCall)];
        next := next + 1;
      } else {
        return Failure(LenaTypeError);
      }
      i := i + 1;
    }
    assert init[i..] == [];
    assert chain + [] == chain;
    return Success((FillSeq(nextId, args, chain + [last]), next));
  }

  /** `FillSeq(*args)` as written. */
  function MakeFillSeqAsWritten(args: seq<Element>, nextId: nat): (r: Result<(Element, nat)>)
    ensures r.Failure?
    ensures r.error == (if |args| == 0 then LenaTypeError else PyTypeError)
  {
    if |args| == 0 then Failure(LenaTypeError)
    else
      match ObjectInit(args)
      case Failure(e) => Failure(e)
      case Success(_) => MakeFillSeq(args, nextId)
  }

  // ------------------------------------------------------------------
  // FillComputeSeq

  /** The index of the first FillCompute element, or -1. */
  function FirstFillCompute(els: seq<Element>): (r: int)
    ensures -1 <= r < |els|
    ensures r >= 0 ==> IsFillComputeEl(els[r]) && forall j :: 0 <= j < r ==> !IsFillComputeEl(els[j])
    ensures r == -1 <==> !AnyFillComputeEl(els)
  {
    if |els| == 0 then -1
    else if IsFillComputeEl(els[0]) then 0
    else
      var k := FirstFillCompute(els[1..]);
      assert forall j :: 1 <= j < |els| ==> els[j] == els[1..][j - 1];
      if k < 0 then -1 else k + 1
  }

  /** The search loop of `FillComputeSeq.__init__`. */
  method FindFillCompute(els: seq<Element>) returns (ind: int)
    ensures ind == FirstFillCompute(els)
  {
    ind := 0;
    while ind < |els|
      invariant 0 <= ind <= |els|
      invariant forall j :: 0 <= j < ind ==> !IsFillComputeEl(els[j])
    {
      if IsFillComputeEl(els[ind]) {
        FirstFillComputeIsFirst(els, ind);
        return;
      }
      ind := ind + 1;
    }
    ind := -1;
  }

  lemma FirstFillComputeIsFirst(els: seq<Element>, ind: int)
    requires 0 <= ind < |els| && IsFillComputeEl(els[ind])
    requires forall j :: 0 <= j < ind ==> !IsFillComputeEl(els[j])
    ensures FirstFillCompute(els) == ind
  {
  }

  /** `FillComputeSeq(*args)`: split at the first FillCompute element.
      This is the corrected behaviour; the program as written is `MakeFillComputeSeqAsWritten`. */
  function MakeFillComputeSeq(args: seq<Element>, nextId: nat): (r: Result<(Element, nat)>)
    ensures !AnyFillComputeEl(args) ==> r == Failure(LenaTypeError)
    ensures r.Failure? ==> r.error == LenaTypeError
    ensures r.Success? ==> var e := r.value.0; var k := FirstFillCompute(args);
              0 <= k && e.FillComputeSeq? && e.id == nextId && e.args == args && e.fc == args[k]
              && e.before.FillSeq? && e.before.args == args[..k + 1]
              && e.after.Sequence? && |e.after.els| == |SequenceArgs(args[k + 1..])|
  {
    var k := FirstFillCompute(args);
    if k < 0 then Failure(LenaTypeError)
    else
      var (before, n1) :- MakeFillSeq(args[..k + 1], nextId + 1);
      var (after, n2) :- MakeSequence(args[k + 1..], n1);
      Success((FillComputeSeq(nextId, args, before, args[k], after), n2))
  }

  /** `FillComputeSeq(*args)` as written: with no arguments the base
      initializer succeeds and the stored list is missing. */
  function MakeFillComputeSeqAsWritten(args: seq<Element>, nextId: nat): (r: Result<(Element, nat)>)
    ensures r.Failure?
    ensures r.error == (if |args| == 0 then PyAttributeError else PyTypeError)
  {
    var _ :- ObjectInit(args);
    Failure(PyAttributeError)
  }

  /** `FillRequestSeq(*args)` as it stands: after the same split at the
      first FillRequest element, it reads an attribute that `FillRequest`
      does not have. */
  function TryFillRequestSeq(args: seq<Element>, nextId: nat): (r: Result<(Element, nat)>)
    ensures r.Failure?
    ensures r.error == LenaTypeError || r.error == PyAttributeError
  {
    var els := SequenceArgs(args);
    var k := FirstFillRequest(els);
    if k < 0 then Failure(LenaTypeError)
    else
      var (_, n1) :- MakeFillSeq(els[..k + 1], nextId + 1);
      var (_, _) :- MakeSequence(els[k + 1..], n1);
      Failure(PyAttributeError)
  }

  function FirstFillRequest(els: seq<Element>): (r: int)
    ensures -1 <= r < |els|
    ensures r >= 0 ==> IsFillRequestEl(els[r]) && forall j :: 0 <= j < r ==> !IsFillRequestEl(els[j])
  {
    if |els| == 0 then -1
    else if IsFillRequestEl(els[0]) then 0
    else
      var k := FirstFillRequest(els[1..]);
      assert forall j :: 1 <= j < |els| ==> els[j] == els[1..][j - 1];
      if k < 0 then -1 else k + 1
  }

  // ------------------------------------------------------------------
  // Split

  /** `_get_seq_with_type(seq)`: explicit sequence types first, then the
      capabilities, and a `Sequence` otherwise. */
  function SeqWithType(s: Element, nextId: nat): (r: Result<(Element, SeqType, nat)>)
    ensures s.Source? ==> r == Success((s, SourceType, nextId))
    ensures s.FillComputeSeq? ==> r == Success((s, FillComputeType, nextId))
    ensures s.Sequence? ==> r == Success((s, SequenceType, nextId))
    ensures r.Success? ==> r.value.2 >= nextId
    ensures r.Success? && r.value.1 == SourceType ==> r.value.0.Source?
    ensures r.Success? && r.value.1 == FillComputeType ==> IsFillComputeEl(r.value.0)
    ensures r.Success? && r.value.1 == FillRequestType ==> IsFillRequestEl(r.value.0)
    ensures r.Success? && r.value.1 == SequenceType ==> r.value.0.Sequence?
    ensures IsFillComputeEl(s) && !s.Source? && !s.Sequence? ==> r == Success((s, FillComputeType, nextId))
    ensures !IsLenaSequence(s) && !IsFillComputeSeq(s) && IsFillRequestEl(s) ==> r == Success((s, FillRequestType, nextId))
  {
    if s.Source? then Success((s, SourceType, nextId))
    else if s.FillComputeSeq? then Success((s, FillComputeType, nextId))
    else if s.Sequence? then Success((s, SequenceType, nextId))
    else if IsFillComputeSeq(s) then
      if IsFillComputeEl(s) then Success((s, FillComputeType, nextId))
      else
        var (fc, next) :- MakeFillComputeSeq(Members(s).value, nextId);
        Success((fc, FillComputeType, next))
    else if IsFillRequestSeq(s) then
      if IsFillRequestEl(s) then Success((s, FillRequestType, nextId))
      else
        Failure(TryFillRequestSeq(Members(s).value, nextId).error)
    else
      var made := if s.Tuple? then MakeSequence(s.els, nextId) else MakeSequence([s], nextId);
      if made.Failure? then Failure(LenaTypeError)
      else Success((made.value.0, SequenceType, made.value.1))
  }

  /** Classify every branch, in order. */
  function ClassifyAll(seqs: seq<Element>, nextId: nat): (r: Result<(seq<Element>, seq<SeqType>, nat)>)
    ensures r.Success? ==> |r.value.0| == |seqs| && |r.value.1| == |seqs| && r.value.2 >= nextId
    ensures r.Success? ==> forall i :: 0 <= i < |seqs| ==>
              (r.value.1[i] == SourceType ==> r.value.0[i].Source?)
              && (r.value.1[i] == FillComputeType ==> IsFillComputeEl(r.value.0[i]))
              && (r.value.1[i] == FillRequestType ==> IsFillRequestEl(r.value.0[i]))
              && (r.value.1[i] == SequenceType ==> r.value.0[i].Sequence?)
    ensures r.Success? ==> forall i :: 0 <= i < |seqs| ==> (r.value.1[i] == SourceType <==> seqs[i].Source?)
  {
    if |seqs| == 0 then Success(([], [], nextId))
    else
      var (s, t, next) :- SeqWithType(seqs[0], nextId);
      var (ss, ts, last) :- ClassifyAll(seqs[1..], next);
      assert forall i :: 1 <= i < |seqs| ==> seqs[i] == seqs[1..][i - 1];
      SourceTypeOnlySource(seqs[0], nextId);
      Success(([s] + ss, [t] + ts, last))
  }

  lemma SourceTypeOnlySource(s: Element, nextId: nat)
    ensures SeqWithType(s, nextId).Success? ==> (SeqWithType(s, nextId).value.1 == SourceType <==> s.Source?)
  {
  }

  /** `Split(seqs, bufsize, copy_buf)`: every branch goes through
      `alter_sequence` (with *hook* and *fuel*, see `CoreMeta`) and is then
      classified. */
  function MakeSplit(seqs: Element, bufsize: Val, copyBuf: Val, hook: AlterHook, fuel: nat, nextId: nat)
    : (r: Result<(Element, nat)>)
    ensures !seqs.List? ==> r == Failure(LenaTypeError)
    ensures r.Success? ==> var e := r.value.0;
              e.Split? && e.id == nextId && |e.seqs| == |seqs.els| && |e.types| == |seqs.els|
              && e.buffer == bufsize && e.copyBuf == Truthy(copyBuf)
    ensures r.Success? ==> bufsize.VNone? || NaturalNumber(bufsize).Success?
    ensures (seqs.List? && AlterAll(seqs.els, hook, fuel).Success?
             && ClassifyAll(AlterAll(seqs.els, hook, fuel).value, nextId + 1).Success? && !bufsize.VNone?
             && NaturalNumber(bufsize).Failure?) ==> r == Failure(NaturalNumber(bufsize).error)
  {
    if !seqs.List? then Failure(LenaTypeError)
    else
      var altered :- AlterAll(seqs.els, hook, fuel);
      var (ss, ts, next) :- ClassifyAll(altered, nextId + 1);
      if !bufsize.VNone? && NaturalNumber(bufsize).Failure? then Failure(NaturalNumber(bufsize).error)
      else Success((Split(nextId, ss, ts, bufsize, Truthy(copyBuf)), next))
  }
}
